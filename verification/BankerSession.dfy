/** Whole sessions of threads that play scripts. */
module BankerSession {

  // The master handles one message at a time. Main results, over every run on scripts that keep each thread
  // between nothing and its maximum: the books balance, every state is safe, and every run is finite. A release
  // does not restore NEED, so a thread may come to ask, all told, for more than its maximum; a run cannot get
  // stuck before everybody has quit provided threads do so only with nothing in hand.

  import opened Collections
  import opened Bank
  import opened PendingPass
  import opened MasterStep

  type Script = seq<seq<int>>

  datatype Config = Config(total: seq<int>, max: seq<seq<int>>, scripts: seq<Script>)

  /** What the first `k` requests of the script come to, for resource `j`. */
  function Net(script: Script, k: nat, j: nat): int
    requires k <= |script| && forall i :: 0 <= i < |script| ==> j < |script[i]|
  {
    if k == 0 then 0 else Net(script, k - 1, j) + script[k - 1][j]
  }

  /** What the first `k` requests ask for, leaving out what they give back. */
  function AskedSoFar(script: Script, k: nat, j: nat): int
    requires k <= |script| && forall i :: 0 <= i < |script| ==> j < |script[i]|
  {
    if k == 0 then 0 else AskedSoFar(script, k - 1, j) + Asked(script[k - 1])[j]
  }

  predicate HasWidth(script: Script, m: nat) {
    forall i :: 0 <= i < |script| ==> |script[i]| == m
  }

  /** A script never takes its thread below nothing or above `max`. */
  predicate ScriptWithin(max: seq<int>, script: Script) {
    && HasWidth(script, |max|)
    && forall k, j :: 0 <= k <= |script| && 0 <= j < |max| ==> 0 <= Net(script, k, j) <= max[j]
  }

  predicate ConfigOk(c: Config) {
    && |c.scripts| == |c.max| && NonNegative(c.total)
    && (forall t :: 0 <= t < |c.max| ==> |c.max[t]| == |c.total| && NonNegative(c.max[t]) && AtMost(c.max[t], c.total))
    && (forall t :: 0 <= t < |c.max| ==> ScriptWithin(c.max[t], c.scripts[t]))
  }

  /** `pos[t]` is how many messages thread `t` has sent; the last one is its QUIT. */
  datatype Session = Session(master: Master, pos: seq<nat>)

  function Start(c: Config): Session
    requires ConfigOk(c)
  {
    Session(Master(Bank(c.total, seq(|c.max|, _ => seq(|c.total|, _ => 0)), c.max), [], |c.max|),
            seq(|c.max|, _ => 0))
  }

  predicate Shaped(c: Config, s: Session) {
    && ConfigOk(c) && MasterOk(s.master)
    && s.master.bank.Types() == |c.total| && s.master.bank.Threads() == |c.max| == |s.pos|
    && forall t :: 0 <= t < |c.max| ==> s.pos[t] <= |c.scripts[t]| + 1
  }

  predicate HasQuit(c: Config, s: Session, t: nat)
    requires Shaped(c, s) && t < |c.max|
  {
    s.pos[t] == |c.scripts[t]| + 1
  }

  predicate IsWaiting(q: seq<Request>, t: nat) {
    exists i :: 0 <= i < |q| && q[i].thread == t
  }

  /** A thread sends its next message unless it has quit or waits for a grant. */
  predicate CanMove(c: Config, s: Session, t: nat)
    requires Shaped(c, s)
  {
    t < |c.max| && !HasQuit(c, s, t) && !IsWaiting(s.master.pending, t)
  }

  function Message(c: Config, s: Session, t: nat): (msg: (Kind, seq<int>))
    requires Shaped(c, s) && CanMove(c, s, t)
    ensures |msg.1| == |c.total|
  {
    if s.pos[t] == |c.scripts[t]| then (Quit, seq(|c.total|, _ => 0))
    else var r := c.scripts[t][s.pos[t]]; (KindOf(r), r)
  }

  ghost function Next(c: Config, s: Session, t: nat): (s': Session)
    requires Shaped(c, s) && CanMove(c, s, t)
    ensures Shaped(c, s')
  {
    var (kind, r) := Message(c, s, t);
    Session(Step(s.master, t, kind, r), s.pos[t := s.pos[t] + 1])
  }

  ghost predicate StepTo(c: Config, s: Session, t: nat, s': Session) {
    Shaped(c, s) && CanMove(c, s, t) && s' == Next(c, s, t)
  }

  ghost predicate Follows(c: Config, s: Session, s': Session) {
    exists t :: StepTo(c, s, t, s')
  }

  /** A run: the start, then one message after another, by whichever threads the scheduler picks. */
  ghost predicate IsRun(c: Config, run: seq<Session>) {
    && ConfigOk(c) && |run| > 0 && run[0] == Start(c)
    && forall i :: 0 <= i < |run| - 1 ==> Follows(c, run[i], run[i + 1])
  }

  function Last(run: seq<Session>): Session
    requires |run| > 0
  {
    run[|run| - 1]
  }

  predicate AllQuit(c: Config, s: Session)
    requires Shaped(c, s)
  {
    forall t :: 0 <= t < |c.max| ==> HasQuit(c, s, t)
  }

  predicate SomeoneCanMove(c: Config, s: Session)
    requires Shaped(c, s)
  {
    exists t :: 0 <= t < |c.max| && CanMove(c, s, t)
  }

  ghost predicate Reachable(c: Config, s: Session) {
    exists run :: IsRun(c, run) && Last(run) == s
  }

  lemma ReachableStart(c: Config)
    requires ConfigOk(c)
    ensures Reachable(c, Start(c))
  {
    assert IsRun(c, [Start(c)]) && Last([Start(c)]) == Start(c);
  }

  lemma ReachableNext(c: Config, s: Session, s': Session)
    requires Reachable(c, s) && Follows(c, s, s')
    ensures Reachable(c, s')
  {
    var run :| IsRun(c, run) && Last(run) == s;
    var longer := run + [s'];
    forall i | 0 <= i < |longer| - 1 ensures Follows(c, longer[i], longer[i + 1]) {
      assert i < |run| - 1 ==> Follows(c, run[i], run[i + 1]);
    }
    assert IsRun(c, longer) && Last(longer) == s';
  }

  /** Some thread has not quit, and no thread can send anything. */
  predicate Blocked(c: Config, s: Session) {
    Shaped(c, s) && !AllQuit(c, s) && !SomeoneCanMove(c, s)
  }

  // ----- what a thread is still owed

  function Owed(q: seq<Request>, t: nat, j: nat): int
    requires forall i :: 0 <= i < |q| ==> j < |q[i].amount|
  {
    if q == [] then 0 else (if q[0].thread == t then q[0].amount[j] else 0) + Owed(q[1..], t, j)
  }

  lemma {:induction false} OwedBounds(b: WellShaped, q: seq<Request>, t: nat, j: nat)
    requires QueueOk(b, q) && j < b.Types()
    ensures 0 <= Owed(q, t, j)
    ensures forall i :: 0 <= i < |q| && q[i].thread == t ==> q[i].amount[j] <= Owed(q, t, j)
    ensures !IsWaiting(q, t) ==> Owed(q, t, j) == 0
  {
    if q != [] {
      OwedBounds(b, q[1..], t, j);
      assert forall i :: 0 < i < |q| ==> q[i] == q[1..][i - 1];
      if !IsWaiting(q, t) {
        assert q[0].thread != t;
        assert !IsWaiting(q[1..], t);
      }
    }
  }

  lemma {:induction false} OwedAppend(q: seq<Request>, x: Request, t: nat, j: nat)
    requires j < |x.amount| && forall i :: 0 <= i < |q| ==> j < |q[i].amount|
    ensures Owed(q + [x], t, j) == Owed(q, t, j) + if x.thread == t then x.amount[j] else 0
  {
    if q != [] {
      assert (q + [x])[1..] == q[1..] + [x];
      OwedAppend(q[1..], x, t, j);
    }
  }

  /** What a thread holds or is owed is not changed by a pass, nor is what its need leaves beyond what it is owed. */
  lemma {:induction false} PassKeepsBooks(b: WellShaped, q: seq<Request>, t: nat, j: nat)
    requires QueueOk(b, q) && t < b.Threads() && j < b.Types()
    ensures var o := Pass(b, q);
      && o.bank.alloc[t][j] + Owed(o.kept, t, j) == b.alloc[t][j] + Owed(q, t, j)
      && o.bank.need[t][j] - Owed(o.kept, t, j) == b.need[t][j] - Owed(q, t, j)
    decreases |q|
  {
    if q != [] {
      if Grantable(b, q[0]) {
        PassKeepsBooks(Grant(b, q[0].thread, q[0].amount), q[1..], t, j);
      } else {
        PassKeepsBooks(b, q[1..], t, j);
        var rest := Pass(b, q[1..]).kept;
        assert ([q[0]] + rest)[1..] == rest;
      }
    }
  }

  lemma {:induction false} PassKeepsWaiting(b: WellShaped, q: seq<Request>, t: nat)
    requires QueueOk(b, q) && IsWaiting(Pass(b, q).kept, t)
    ensures IsWaiting(q, t)
    decreases |q|
  {
    if q != [] {
      if q[0].thread == t {
      } else if Grantable(b, q[0]) {
        PassKeepsWaiting(Grant(b, q[0].thread, q[0].amount), q[1..], t);
        var i :| 0 <= i < |q[1..]| && q[1..][i].thread == t;
        assert q[i + 1].thread == t;
      } else {
        var rest := Pass(b, q[1..]).kept;
        var k :| 0 <= k < |[q[0]] + rest| && ([q[0]] + rest)[k].thread == t;
        assert rest[k - 1].thread == t;
        PassKeepsWaiting(b, q[1..], t);
        var i :| 0 <= i < |q[1..]| && q[1..][i].thread == t;
        assert q[i + 1].thread == t;
      }
    }
  }

  // ----- the invariant

  /** The books of thread `t` for resource `j`. */
  predicate Balanced(c: Config, s: Session, t: nat, j: nat)
    requires Shaped(c, s) && t < |c.max| && j < |c.total|
  {
    var script, owed := c.scripts[t], Owed(s.master.pending, t, j);
    var sent := if HasQuit(c, s, t) then |script| else s.pos[t];
    && s.master.bank.alloc[t][j] == (if HasQuit(c, s, t) then 0 else Net(script, sent, j) - owed)
    && s.master.bank.need[t][j] == c.max[t][j] - (AskedSoFar(script, sent, j) - owed)
  }

  /** At most one request of each thread waits. */
  predicate OnePerThread(q: seq<Request>) {
    forall i, k :: 0 <= i < k < |q| ==> q[i].thread != q[k].thread
  }

  /** The request is what its thread asked for in its last message. */
  predicate IsLastAsked(c: Config, s: Session, x: Request)
    requires Shaped(c, s)
  {
    && x.thread < |c.max| && 1 <= s.pos[x.thread] <= |c.scripts[x.thread]|
    && x.amount == Asked(c.scripts[x.thread][s.pos[x.thread] - 1])
  }

  predicate PendingFits(c: Config, s: Session)
    requires Shaped(c, s)
  {
    OnePerThread(s.master.pending) && forall x :: x in s.master.pending ==> IsLastAsked(c, s, x)
  }

  lemma {:induction false} PassKeepsOrder(b: WellShaped, q: seq<Request>)
    requires QueueOk(b, q) && OnePerThread(q)
    ensures OnePerThread(Pass(b, q).kept) && forall x :: x in Pass(b, q).kept ==> x in q
    decreases |q|
  {
    hide Grantable;
    if q != [] {
      var next := if Grantable(b, q[0]) then Grant(b, q[0].thread, q[0].amount) else b;
      PassKeepsOrder(next, q[1..]);
      var rest := Pass(next, q[1..]).kept;
      assert forall x :: x in rest ==> x in q[1..] && x.thread != q[0].thread;
      assert Pass(b, q).kept == if Grantable(b, q[0]) then rest else [q[0]] + rest;
    }
  }

  lemma {:induction false} OwedOnce(q: seq<Request>, i: nat, j: nat)
    requires OnePerThread(q) && i < |q| && forall k :: 0 <= k < |q| ==> j < |q[k].amount|
    ensures Owed(q, q[i].thread, j) == q[i].amount[j]
  {
    if i == 0 {
      OwedByOthers(q[1..], q[0].thread, j);
    } else {
      OwedOnce(q[1..], i - 1, j);
    }
  }

  lemma {:induction false} OwedByOthers(q: seq<Request>, t: nat, j: nat)
    requires (forall k :: 0 <= k < |q| ==> j < |q[k].amount|) && forall k :: 0 <= k < |q| ==> q[k].thread != t
    ensures Owed(q, t, j) == 0
  {
    if q != [] { OwedByOthers(q[1..], t, j); }
  }

  function StillActive(c: Config, s: Session): set<nat>
    requires Shaped(c, s)
  {
    set t | 0 <= t < |c.max| && !HasQuit(c, s, t)
  }

  ghost predicate Inv(c: Config, s: Session) {
    && Shaped(c, s)
    && s.master.bank.HoldsNonNegative() && NonNegative(s.master.bank.avail)
    && Safe(s.master.bank)
    && (forall j :: 0 <= j < |c.total| ==> Total(s.master.bank, j) == c.total[j])
    && (forall t, j :: 0 <= t < |c.max| && 0 <= j < |c.total| ==> Balanced(c, s, t, j))
    && (forall t :: 0 <= t < |c.max| && HasQuit(c, s, t) ==> !IsWaiting(s.master.pending, t))
    && s.master.active == |StillActive(c, s)| && PendingFits(c, s)
    && (forall i :: 0 <= i < |s.master.pending| ==> !Grantable(s.master.bank, s.master.pending[i]))
  }

  lemma {:induction false} ZeroColumn(b: WellShaped, j: nat, k: nat)
    requires j < b.Types() && k <= b.Threads() && forall t :: 0 <= t < b.Threads() ==> b.alloc[t][j] == 0
    ensures ColumnSum(b, j, k) == 0
  {
    if k > 0 { ZeroColumn(b, j, k - 1); }
  }

  lemma StartInv(c: Config)
    requires ConfigOk(c)
    ensures Inv(c, Start(c))
  {
    var s := Start(c);
    AllFitSafe(s.master.bank);
    forall j | 0 <= j < |c.total| ensures Total(s.master.bank, j) == c.total[j] {
      ZeroColumn(s.master.bank, j, |c.max|);
    }
    assert StillActive(c, s) == Upto(|c.max|);
  }

  /** Whoever may move returns no more than it holds. */
  lemma MessageAffordable(c: Config, s: Session, t: nat)
    requires Inv(c, s) && CanMove(c, s, t)
    ensures var (kind, r) := Message(c, s, t); Affordable(s.master, t, kind, r)
  {
    var (kind, r) := Message(c, s, t);
    if kind != Quit {
      forall j | 0 <= j < |r| ensures 0 <= s.master.bank.alloc[t][j] + Returned(r)[j] {
        OwedBounds(s.master.bank, s.master.pending, t, j);
        assert Balanced(c, s, t, j);
        assert 0 <= Net(c.scripts[t], s.pos[t] + 1, j);
      }
    }
  }

  /** Who waits after a step was waiting before it, or is the thread that just asked. */
  lemma NextWaiting(c: Config, s: Session, t: nat, u: nat)
    requires Shaped(c, s) && CanMove(c, s, t)
    requires IsWaiting(Next(c, s, t).master.pending, u)
    ensures IsWaiting(s.master.pending, u) || (u == t && !HasQuit(c, Next(c, s, t), t))
  {
    var (kind, r) := Message(c, s, t);
    var mid := Receive(s.master, t, kind, r);
    PassKeepsWaiting(mid.bank, mid.pending, u);
    if kind == Additional {
      WaitingAppend(s.master.pending, Request(t, Asked(r)), u);
    }
  }

  lemma WaitingAppend(q: seq<Request>, x: Request, u: nat)
    requires IsWaiting(q + [x], u)
    ensures IsWaiting(q, u) || x.thread == u
  {
    var i :| 0 <= i < |q + [x]| && (q + [x])[i].thread == u;
    assert i < |q| ==> q[i].thread == u;
  }

  lemma ReceiveBooks(c: Config, s: Session, t: nat, u: nat, j: nat)
    requires Shaped(c, s) && CanMove(c, s, t) && u < |c.max| && j < |c.total|
    requires Owed(s.master.pending, t, j) == 0
    requires Balanced(c, s, u, j)
    ensures var (kind, r) := Message(c, s, t);
      var mid := Receive(s.master, t, kind, r);
      var owed := Owed(mid.pending, u, j);
      && owed == Owed(s.master.pending, u, j) + (if u == t && kind == Additional then Asked(r)[j] else 0)
      && mid.bank.alloc[u][j] + owed
         == (if u == t && kind == Quit then 0
             else s.master.bank.alloc[u][j] + Owed(s.master.pending, u, j) + (if u == t then r[j] else 0))
      && mid.bank.need[u][j] == s.master.bank.need[u][j]
  {
    var (kind, r) := Message(c, s, t);
    if kind == Additional {
      OwedAppend(s.master.pending, Request(t, Asked(r)), u, j);
    }
  }

  lemma NextBalanced(c: Config, s: Session, t: nat, u: nat, j: nat)
    requires Shaped(c, s) && CanMove(c, s, t) && u < |c.max| && j < |c.total|
    requires Owed(s.master.pending, t, j) == 0
    requires Balanced(c, s, u, j)
    requires HasQuit(c, s, u) ==> Owed(s.master.pending, u, j) == 0
    requires HasQuit(c, Next(c, s, t), u) ==> Owed(Next(c, s, t).master.pending, u, j) == 0
    ensures Balanced(c, Next(c, s, t), u, j)
  {
    hide Move, Grant, Pass;
    var (kind, r) := Message(c, s, t);
    var mid := Receive(s.master, t, kind, r);
    ReceiveBooks(c, s, t, u, j);
    PassKeepsBooks(mid.bank, mid.pending, u, j);
    if u == t {
      var script, k := c.scripts[t], s.pos[t];
      if kind != Quit {
        assert Net(script, k + 1, j) == Net(script, k, j) + r[j];
        assert AskedSoFar(script, k + 1, j) == AskedSoFar(script, k, j) + Asked(r)[j];
        assert kind == Release ==> Asked(r)[j] == 0;
      }
    }
  }

  lemma NextActive(c: Config, s: Session, t: nat)
    requires Shaped(c, s) && CanMove(c, s, t) && s.master.active == |StillActive(c, s)|
    ensures Next(c, s, t).master.active == |StillActive(c, Next(c, s, t))|
  {
    var s' := Next(c, s, t);
    assert StillActive(c, s') == if HasQuit(c, s', t) then StillActive(c, s) - {t} else StillActive(c, s);
  }

  lemma NextPending(c: Config, s: Session, t: nat)
    requires Shaped(c, s) && CanMove(c, s, t) && PendingFits(c, s)
    ensures PendingFits(c, Next(c, s, t))
  {
    hide Pass, Move, Asked;
    var (kind, r) := Message(c, s, t);
    var mid, s' := Receive(s.master, t, kind, r), Next(c, s, t);
    assert forall i :: 0 <= i < |s.master.pending| ==> s.master.pending[i].thread != t;
    PassKeepsOrder(mid.bank, mid.pending);
    forall x | x in s'.master.pending ensures IsLastAsked(c, s', x) {
      assert x in mid.pending;
      assert x.thread != t ==> x in s.master.pending && IsLastAsked(c, s, x);
    }
  }

  lemma StepInv(c: Config, s: Session, t: nat)
    requires Inv(c, s) && CanMove(c, s, t)
    ensures Inv(c, Next(c, s, t))
  {
    hide Safe, Pass, Grantable, Owed, Balanced, PendingFits;
    var (kind, r) := Message(c, s, t);
    var mid := Receive(s.master, t, kind, r);
    var s' := Next(c, s, t);
    MessageAffordable(c, s, t);
    StepKeepsSafe(s.master, t, kind, r);
    KeptAreRefused(mid.bank, mid.pending);
    NextActive(c, s, t);
    NextPending(c, s, t);
    forall j | 0 <= j < |c.total| ensures Total(s'.master.bank, j) == c.total[j] {
      StepConserves(s.master, t, kind, r, j);
    }
    forall u | 0 <= u < |c.max| && HasQuit(c, s', u) ensures !IsWaiting(s'.master.pending, u) {
      if IsWaiting(s'.master.pending, u) {
        NextWaiting(c, s, t, u);
      }
    }
    forall u, j | 0 <= u < |c.max| && 0 <= j < |c.total| ensures Balanced(c, s', u, j) {
      OwedBounds(s.master.bank, s.master.pending, t, j);
      OwedBounds(s.master.bank, s.master.pending, u, j);
      OwedBounds(s'.master.bank, s'.master.pending, u, j);
      NextBalanced(c, s, t, u, j);
    }
  }

  lemma {:induction false} RunInv(c: Config, run: seq<Session>)
    requires IsRun(c, run)
    ensures Inv(c, Last(run))
    decreases |run|
  {
    if |run| == 1 {
      StartInv(c);
    } else {
      hide Inv, StepTo;
      var before := |run| - 2;
      assert Follows(c, run[before], run[before + 1]);
      RunInv(c, run[..|run| - 1]);
      FollowsInv(c, run[before], run[before + 1]);
    }
  }

  lemma FollowsInv(c: Config, s: Session, s': Session)
    requires Inv(c, s) && Follows(c, s, s')
    ensures Inv(c, s')
  {
    var t :| StepTo(c, s, t, s');
    StepInv(c, s, t);
  }

  // ----- what holds at the end of every run

  function GivenBackSoFar(script: Script, k: nat, j: nat): int
    requires k <= |script| && forall i :: 0 <= i < |script| ==> j < |script[i]|
  {
    if k == 0 then 0 else GivenBackSoFar(script, k - 1, j) - Returned(script[k - 1])[j]
  }

  lemma {:induction false} NetSplits(script: Script, k: nat, j: nat)
    requires k <= |script| && forall i :: 0 <= i < |script| ==> j < |script[i]|
    ensures Net(script, k, j) == AskedSoFar(script, k, j) - GivenBackSoFar(script, k, j)
  {
    if k > 0 { NetSplits(script, k - 1, j); }
  }

  /** Every state a session reaches is safe. */
  lemma RunIsSafe(c: Config, run: seq<Session>)
    requires IsRun(c, run)
    ensures Safe(Last(run).master.bank)
  {
    RunInv(c, run);
  }

  /** All that thread `t` has handed back, by its messages and by quitting. */
  function HandedBack(c: Config, s: Session, t: nat, j: nat): int
    requires Shaped(c, s) && t < |c.max| && j < |c.total|
  {
    var script := c.scripts[t];
    if HasQuit(c, s, t) then GivenBackSoFar(script, |script|, j) + Net(script, |script|, j)
    else GivenBackSoFar(script, s.pos[t], j)
  }

  /** The books of every state a session reaches: nothing is lost, nobody holds more than its maximum
      or less than nothing, and NEED is MAX - ALLOCATION less everything handed back so far. */
  lemma RunAccounts(c: Config, run: seq<Session>, t: nat, j: nat)
    requires IsRun(c, run) && t < |c.max| && j < |c.total|
    ensures var s := Last(run);
      var b := s.master.bank;
      && Shaped(c, s)
      && Total(b, j) == c.total[j] && 0 <= b.avail[j]
      && 0 <= b.alloc[t][j] <= c.max[t][j]
      && b.need[t][j] == c.max[t][j] - b.alloc[t][j] - HandedBack(c, s, t, j)
      && (HasQuit(c, s, t) ==> b.alloc[t][j] == 0)
  {
    RunInv(c, run);
    var s := Last(run);
    assert Balanced(c, s, t, j);
    OwedBounds(s.master.bank, s.master.pending, t, j);
    assert NonNegative(s.master.bank.alloc[t]);
    if HasQuit(c, s, t) {
      NetSplits(c.scripts[t], |c.scripts[t]|, j);
    } else {
      NetSplits(c.scripts[t], s.pos[t], j);
      assert Net(c.scripts[t], s.pos[t], j) <= c.max[t][j];
    }
  }

  // ----- progress

  /** With message `k` the thread's requests come to more than its maximum, in a resource that the message asks for. */
  predicate OverAsks(max: seq<int>, script: Script, k: nat)
    requires k < |script| && HasWidth(script, |max|)
  {
    exists j :: 0 <= j < |max| && script[k][j] > 0 && AskedSoFar(script, k + 1, j) > max[j]
  }

  /** What the thread holds when it waits for the request in message `k`. */
  function InHand(script: Script, k: nat, j: nat): int
    requires k < |script| && forall i :: 0 <= i < |script| ==> j < |script[i]|
  {
    Net(script, k, j) + Returned(script[k])[j]
  }

  /** The thread asks for more than its maximum, all told, only when it holds nothing. */
  predicate Harmless(max: seq<int>, script: Script)
    requires HasWidth(script, |max|)
  {
    forall k :: 0 <= k < |script| && OverAsks(max, script, k) ==> forall j :: 0 <= j < |max| ==> InHand(script, k, j) == 0
  }

  predicate AllHarmless(c: Config)
    requires ConfigOk(c)
  {
    forall t :: 0 <= t < |c.max| ==> Harmless(c.max[t], c.scripts[t])
  }

  /** No thread asks, over its whole script, for more than its maximum. */
  predicate AsksWithinMax(max: seq<int>, script: Script)
    requires HasWidth(script, |max|)
  {
    forall j :: 0 <= j < |max| ==> AskedSoFar(script, |script|, j) <= max[j]
  }

  predicate ReleasesOnlyByQuitting(script: Script) {
    forall i :: 0 <= i < |script| ==> NonNegative(script[i])
  }

  lemma {:induction false} AskedIsNet(script: Script, k: nat, j: nat)
    requires k <= |script| && forall i :: 0 <= i < |script| ==> j < |script[i]| && NonNegative(script[i])
    ensures AskedSoFar(script, k, j) == Net(script, k, j)
  {
    if k > 0 { AskedIsNet(script, k - 1, j); }
  }

  lemma {:induction false} AskedGrows(script: Script, k: nat, l: nat, j: nat)
    requires k <= l <= |script| && forall i :: 0 <= i < |script| ==> j < |script[i]|
    ensures AskedSoFar(script, k, j) <= AskedSoFar(script, l, j)
    decreases l
  {
    if k < l { AskedGrows(script, k, l - 1, j); }
  }

  lemma WithinMaxIsHarmless(max: seq<int>, script: Script)
    requires HasWidth(script, |max|) && AsksWithinMax(max, script)
    ensures Harmless(max, script)
  {
    forall k | 0 <= k < |script| ensures !OverAsks(max, script, k) {
      forall j | 0 <= j < |max| ensures AskedSoFar(script, k + 1, j) <= max[j] {
        AskedGrows(script, k + 1, |script|, j);
      }
    }
  }

  /** A script that releases only when it quits does no harm. */
  lemma ReleaseFreeIsHarmless(max: seq<int>, script: Script)
    requires ScriptWithin(max, script) && ReleasesOnlyByQuitting(script)
    ensures AsksWithinMax(max, script) && Harmless(max, script)
  {
    forall j | 0 <= j < |max| ensures AskedSoFar(script, |script|, j) <= max[j] {
      AskedIsNet(script, |script|, j);
      assert Net(script, |script|, j) <= max[j];
    }
    WithinMaxIsHarmless(max, script);
  }

  /** What a waiting thread holds, is owed and still may ask for. */
  lemma WaitingBooks(c: Config, s: Session, i: nat)
    requires Inv(c, s) && i < |s.master.pending|
    ensures var x := s.master.pending[i];
      && x.thread < |c.max| && !HasQuit(c, s, x.thread) && 1 <= s.pos[x.thread] <= |c.scripts[x.thread]|
      && var (script, k) := (c.scripts[x.thread], s.pos[x.thread] - 1);
      && x.amount == Asked(script[k])
      && forall j :: 0 <= j < |c.total| ==>
           && s.master.bank.alloc[x.thread][j] == InHand(script, k, j)
           && s.master.bank.need[x.thread][j] == c.max[x.thread][j] - AskedSoFar(script, k, j)
  {
    hide Asked, Safe, Grantable;
    var x := s.master.pending[i];
    assert x in s.master.pending && IsLastAsked(c, s, x);
    var script, k := c.scripts[x.thread], s.pos[x.thread] - 1;
    forall j | 0 <= j < |c.total|
      ensures s.master.bank.alloc[x.thread][j] == InHand(script, k, j)
      ensures s.master.bank.need[x.thread][j] == c.max[x.thread][j] - AskedSoFar(script, k, j)
    {
      assert Balanced(c, s, x.thread, j);
      OwedOnce(s.master.pending, i, j);
      Parts(script[k], j);
    }
  }

  lemma Parts(r: seq<int>, j: nat)
    requires j < |r|
    ensures r[j] == Asked(r)[j] + Returned(r)[j]
    ensures Asked(r)[j] == if r[j] > 0 then r[j] else 0
  {
  }

  /** A waiting thread with a harmless script asks within its need or holds nothing. */
  lemma WaitsHarmlessly(c: Config, s: Session, i: nat)
    requires Inv(c, s) && i < |s.master.pending| && AllHarmless(c)
    ensures var x := s.master.pending[i];
      || WithinNeed(s.master.bank, x)
      || forall j :: 0 <= j < |c.total| ==> s.master.bank.alloc[x.thread][j] == 0
  {
    WaitingBooks(c, s, i);
    hide Inv, Asked, Returned, Net;
    var x := s.master.pending[i];
    var max, script, k := c.max[x.thread], c.scripts[x.thread], s.pos[x.thread] - 1;
    assert Harmless(max, script);
    if !OverAsks(max, script, k) {
      forall j | 0 <= j < |c.total| ensures x.amount[j] == 0 || x.amount[j] <= s.master.bank.need[x.thread][j] {
        Parts(script[k], j);
      }
    }
  }

  /** The threads that wait for more than their need. */
  function Overasking(b: WellShaped, q: seq<Request>): set<nat>
    requires QueueOk(b, q)
  {
    set i | 0 <= i < |q| && !WithinNeed(b, q[i]) :: q[i].thread
  }

  /** While anybody waits, somebody holds something: from a full pool every request would be granted. */
  lemma WaitingMeansHeld(c: Config, s: Session, i: nat)
    requires Inv(c, s) && i < |s.master.pending|
    ensures exists t, j :: 0 <= t < |c.max| && 0 <= j < |c.total| && s.master.bank.alloc[t][j] != 0
  {
    WaitingBooks(c, s, i);
    var x, b := s.master.pending[i], s.master.bank;
    if forall t, j :: 0 <= t < |c.max| && 0 <= j < |c.total| ==> b.alloc[t][j] == 0 {
      FullPoolCovers(c, s, x);
      FinisherIsGranted(b, x);
      assert false;
    }
  }

  lemma FullPoolCovers(c: Config, s: Session, x: Request)
    requires Shaped(c, s) && IsLastAsked(c, s, x)
    requires forall j :: 0 <= j < |c.total| ==> Total(s.master.bank, j) == c.total[j]
    requires forall t, j :: 0 <= t < |c.max| && 0 <= j < |c.total| ==> s.master.bank.alloc[t][j] == 0
    requires var (script, k) := (c.scripts[x.thread], s.pos[x.thread] - 1);
      forall j :: 0 <= j < |c.total| ==>
        && InHand(script, k, j) == 0
        && s.master.bank.need[x.thread][j] == c.max[x.thread][j] - AskedSoFar(script, k, j)
    ensures AtMost(s.master.bank.need[x.thread], s.master.bank.avail) && AtMost(x.amount, s.master.bank.avail)
  {
    hide Asked, Returned;
    var b, script, k := s.master.bank, c.scripts[x.thread], s.pos[x.thread] - 1;
    forall j | 0 <= j < |c.total| ensures b.need[x.thread][j] <= b.avail[j] && x.amount[j] <= b.avail[j] {
      ZeroColumn(b, j, |c.max|);
      AskedGrows(script, 0, k, j);
      assert Net(script, k + 1, j) <= c.max[x.thread][j];
      Parts(script[k], j);
    }
  }

  /** When everybody still active waits, somebody could have been granted. */
  lemma NotAllWaiting(c: Config, s: Session)
    requires Inv(c, s) && AllHarmless(c) && StillActive(c, s) != {}
    ensures SomeoneCanMove(c, s)
  {
    hide Safe, Grantable, Harmless, WithinNeed, Total, Balanced;
    var b, q := s.master.bank, s.master.pending;
    var active := StillActive(c, s) - Overasking(b, q);
    if forall t :: t in StillActive(c, s) ==> IsWaiting(q, t) {
      forall t | t in active ensures WaitsWithinNeed(b, q, t) {
        var i :| 0 <= i < |q| && q[i].thread == t;
      }
      forall t, j | 0 <= t < b.Threads() && t !in active && 0 <= j < b.Types() ensures b.alloc[t][j] == 0 {
        HoldsNothing(c, s, t, j);
      }
      if active == {} {
        var t :| t in StillActive(c, s);
        var i :| 0 <= i < |q| && q[i].thread == t;
        WaitingMeansHeld(c, s, i);
        assert false;
      }
      SomeoneIsGranted(b, q, active);
      PassGrantsOrRefusesAll(b, q);
      assert false;
    }
    var t :| t in StillActive(c, s) && !IsWaiting(q, t);
    assert CanMove(c, s, t);
  }

  lemma HoldsNothing(c: Config, s: Session, t: nat, j: nat)
    requires Inv(c, s) && AllHarmless(c) && t < |c.max| && j < |c.total|
    requires t !in StillActive(c, s) - Overasking(s.master.bank, s.master.pending)
    ensures s.master.bank.alloc[t][j] == 0
  {
    hide Safe, Grantable, Harmless, WithinNeed, Total, Owed;
    if HasQuit(c, s, t) {
      assert Balanced(c, s, t, j);
    } else {
      var i :| 0 <= i < |s.master.pending| && !WithinNeed(s.master.bank, s.master.pending[i]) && s.master.pending[i].thread == t;
      WaitsHarmlessly(c, s, i);
    }
  }

  /** Deadlock avoidance: a session in which every thread asks beyond its maximum, all told, only with
      nothing in hand can always go on until everybody has quit. */
  lemma NeverBlocked(c: Config, s: Session)
    requires ConfigOk(c) && AllHarmless(c) && Reachable(c, s)
    ensures Shaped(c, s) && !Blocked(c, s)
  {
    hide Safe, Grantable, Harmless;
    var run :| IsRun(c, run) && Last(run) == s;
    RunInv(c, run);
    if t: nat :| t < |c.max| && !HasQuit(c, s, t) {
      assert t in StillActive(c, s);
      NotAllWaiting(c, s);
    }
  }

  // ----- every run is finite

  function Sent(pos: seq<nat>): nat {
    if pos == [] then 0 else pos[0] + Sent(pos[1..])
  }

  function Messages(scripts: seq<Script>): nat {
    if scripts == [] then 0 else |scripts[0]| + 1 + Messages(scripts[1..])
  }

  lemma {:induction false} SentUpdate(pos: seq<nat>, t: nat)
    requires t < |pos|
    ensures Sent(pos[t := pos[t] + 1]) == Sent(pos) + 1
  {
    if t == 0 {
      assert pos[0 := pos[0] + 1][1..] == pos[1..];
    } else {
      assert pos[t := pos[t] + 1][1..] == pos[1..][t - 1 := pos[1..][t - 1] + 1];
      SentUpdate(pos[1..], t - 1);
    }
  }

  lemma {:induction false} SentBound(pos: seq<nat>, scripts: seq<Script>)
    requires |pos| == |scripts| && forall t :: 0 <= t < |pos| ==> pos[t] <= |scripts[t]| + 1
    ensures Sent(pos) <= Messages(scripts)
    ensures Sent(pos) == Messages(scripts) <==> forall t :: 0 <= t < |pos| ==> pos[t] == |scripts[t]| + 1
  {
    if pos != [] {
      SentBound(pos[1..], scripts[1..]);
      assert forall t :: 1 <= t < |pos| ==> pos[t] == pos[1..][t - 1] && scripts[t] == scripts[1..][t - 1];
    }
  }

  lemma {:induction false} NothingSent(n: nat)
    ensures Sent(seq(n, _ => 0)) == 0
  {
    if n > 0 {
      assert seq(n, _ => 0)[1..] == seq(n - 1, _ => 0);
      NothingSent(n - 1);
    }
  }

  lemma {:induction false} RunCounts(c: Config, run: seq<Session>)
    requires IsRun(c, run)
    ensures |run| - 1 == Sent(Last(run).pos)
    decreases |run|
  {
    if |run| == 1 {
      NothingSent(|c.max|);
    } else {
      hide Inv, Next, Shaped, CanMove, ConfigOk;
      var before := |run| - 2;
      RunCounts(c, run[..|run| - 1]);
      assert Follows(c, run[before], run[before + 1]);
      FollowsCounts(c, run[before], run[before + 1]);
    }
  }

  lemma FollowsCounts(c: Config, s: Session, s': Session)
    requires Follows(c, s, s')
    ensures Sent(s'.pos) == Sent(s.pos) + 1
  {
    var t :| StepTo(c, s, t, s');
    SentUpdate(s.pos, t);
  }

  lemma SomethingIn(q: seq<Request>)
    ensures q == [] || exists x :: x in q
  {
    if q != [] { assert q[0] in q; }
  }

  /** A run that cannot be extended is complete: every message was sent, everybody has quit, nothing is
      pending and the pool holds everything again.  No run is longer than that. */
  lemma FinishedRun(c: Config, run: seq<Session>)
    requires IsRun(c, run)
    ensures |run| - 1 <= Messages(c.scripts)
    ensures Shaped(c, Last(run))
    ensures AllHarmless(c) && !SomeoneCanMove(c, Last(run)) ==>
      && |run| - 1 == Messages(c.scripts)
      && Last(run).master.active == 0
      && Last(run).master.pending == []
      && Last(run).master.bank.avail == c.total
  {
    RunCounts(c, run);
    RunInv(c, run);
    var s := Last(run);
    SentBound(s.pos, c.scripts);
    if AllHarmless(c) && !SomeoneCanMove(c, s) {
      NeverBlocked(c, s);
      forall t | 0 <= t < |s.pos| ensures s.pos[t] == |c.scripts[t]| + 1 { assert HasQuit(c, s, t); }
      assert StillActive(c, s) == {};
      assert forall x :: x in s.master.pending ==> IsLastAsked(c, s, x);
      SomethingIn(s.master.pending);
      forall j | 0 <= j < |c.total| ensures s.master.bank.avail[j] == c.total[j] {
        forall t | 0 <= t < |c.max| ensures s.master.bank.alloc[t][j] == 0 { assert Balanced(c, s, t, j); }
        ZeroColumn(s.master.bank, j, |c.max|);
      }
    }
  }
}
