/** Which scripts the master can be trusted with. */
module BankerCompany {

  // Exactly those that ask beyond their maximum only with nothing in hand. Any other script deadlocks in the
  // company of one blameless thread, on a pool made for the two of them.

  import opened Bank
  import opened PendingPass
  import opened MasterStep
  import opened BankerSession

  // ----- two threads

  function NetAt(script: Script, k: nat, m: nat): (v: seq<int>)
    requires k <= |script| && HasWidth(script, m)
    ensures |v| == m && forall j :: 0 <= j < m ==> v[j] == Net(script, k, j)
  {
    seq(m, j requires 0 <= j < m => Net(script, k, j))
  }

  function AskedAt(script: Script, k: nat, m: nat): (v: seq<int>)
    requires k <= |script| && HasWidth(script, m)
    ensures |v| == m && forall j :: 0 <= j < m ==> v[j] == AskedSoFar(script, k, j)
  {
    seq(m, j requires 0 <= j < m => AskedSoFar(script, k, j))
  }

  /** Two threads that hold `h0` and `h1` out of `total` and still need `n0` and `n1`. */
  function Pair(total: seq<int>, h0: seq<int>, n0: seq<int>, h1: seq<int>, n1: seq<int>): WellShaped
    requires |total| == |h0| == |n0| == |h1| == |n1|
  {
    Bank(Minus(Minus(total, h0), h1), [h0, h1], [n0, n1])
  }

  lemma PairMoves(total: seq<int>, h0: seq<int>, n0: seq<int>, h1: seq<int>, n1: seq<int>, r: seq<int>)
    requires |total| == |h0| == |n0| == |h1| == |n1| == |r|
    ensures Move(Pair(total, h0, n0, h1, n1), 0, r) == Pair(total, Plus(h0, r), n0, h1, n1)
    ensures Move(Pair(total, h0, n0, h1, n1), 1, r) == Pair(total, h0, n0, Plus(h1, r), n1)
    ensures Grant(Pair(total, h0, n0, h1, n1), 0, r) == Pair(total, Plus(h0, r), Minus(n0, r), h1, n1)
    ensures Grant(Pair(total, h0, n0, h1, n1), 1, r) == Pair(total, h0, n0, Plus(h1, r), Minus(n1, r))
  {
    assert Minus(Minus(Minus(total, h0), h1), r) == Minus(Minus(total, Plus(h0, r)), h1);
    assert Minus(Minus(Minus(total, h0), h1), r) == Minus(Minus(total, h0), Plus(h1, r));
  }

  /** Two threads are safe when the first can finish at once and the second after it. */
  lemma TwoSafe(total: seq<int>, h0: seq<int>, n0: seq<int>, h1: seq<int>, n1: seq<int>)
    requires |total| == |h0| == |n0| == |h1| == |n1| && NonNegative(h0) && NonNegative(h1)
    requires forall j :: 0 <= j < |total| ==> n0[j] <= total[j] - h0[j] - h1[j] && n1[j] <= total[j] - h1[j]
    ensures Safe(Pair(total, h0, n0, h1, n1))
  {
    var b := Pair(total, h0, n0, h1, n1);
    forall done ensures !Stuck(b, done) {
      forall j | 0 <= j < |total|
        ensures Work(b, {}, j) == total[j] - h0[j] - h1[j] && Work(b, {0}, j) == total[j] - h1[j]
      {
        assert Held(b, {}, j, 1) == 0 && Held(b, {0}, j, 1) == h0[j];
      }
      if 0 !in done {
        WorkGrows(b, 0, {}, done);
      } else if 1 !in done {
        WorkGrows(b, 1, {0}, done);
      }
    }
    SafeIffNeverStuck(b);
  }

  // ----- single steps with nothing pending, or nothing grantable

  lemma PassOfOne(b: WellShaped, x: Request)
    requires RequestOk(b, x) && Grantable(b, x)
    ensures Pass(b, [x]) == Outcome(Grant(b, x.thread, x.amount), [], true)
  {
    hide Grantable, Grant;
    var next := Grant(b, x.thread, x.amount);
    assert [x][1..] == [];
    assert Pass(next, []) == Outcome(next, [], false);
  }

  lemma GrantedAtOnce(b: WellShaped, t: nat, r: seq<int>, active: int)
    requires t < b.Threads() && |r| == b.Types()
    requires AtMost(Asked(r), Move(b, t, Returned(r)).avail)
    requires Safe(Grant(Move(b, t, Returned(r)), t, Asked(r)))
    ensures Step(Master(b, [], active), t, KindOf(r), r) == Master(Grant(Move(b, t, Returned(r)), t, Asked(r)), [], active)
  {
    hide Safe;
    var freed := Move(b, t, Returned(r));
    if KindOf(r) == Release {
      assert Returned(r) == r;
      assert Plus(freed.alloc[t], Asked(r)) == freed.alloc[t];
      assert Minus(freed.need[t], Asked(r)) == freed.need[t] && Minus(freed.avail, Asked(r)) == freed.avail;
    } else {
      PassOfOne(freed, Request(t, Asked(r)));
      assert [] + [Request(t, Asked(r))] == [Request(t, Asked(r))];
    }
  }

  lemma RefusedAtOnce(b: WellShaped, q: seq<Request>, t: nat, r: seq<int>, active: int)
    requires QueueOk(b, q) && t < b.Threads() && |r| == b.Types() && KindOf(r) == Additional
    requires var freed := Move(b, t, Returned(r));
      QueueOk(freed, q) && (forall i :: 0 <= i < |q| ==> !AtMost(q[i].amount, freed.avail)) && !AtMost(Asked(r), freed.avail)
    ensures Step(Master(b, q, active), t, Additional, r)
         == Master(Move(b, t, Returned(r)), q + [Request(t, Asked(r))], active)
  {
    var freed, longer := Move(b, t, Returned(r)), q + [Request(t, Asked(r))];
    PassRefusingAll(freed, longer);
  }

  lemma ReachableInv(c: Config, s: Session)
    requires Reachable(c, s)
    ensures Inv(c, s)
  {
    var run :| IsRun(c, run) && Last(run) == s;
    RunInv(c, run);
  }

  lemma Go(c: Config, s: Session, t: nat, s': Session)
    requires Reachable(c, s) && Shaped(c, s) && CanMove(c, s, t) && s.pos[t] < |c.scripts[t]|
    requires var r := c.scripts[t][s.pos[t]];
      |r| == |c.total| && s' == Session(Step(s.master, t, KindOf(r), r), s.pos[t := s.pos[t] + 1])
    ensures Reachable(c, s')
  {
    assert StepTo(c, s, t, s');
    ReachableNext(c, s, s');
  }

  // ----- the company of an overasking thread

  /** What is left in the pool when the thread sends message `k`: enough for its need. */
  function Spare(max: seq<int>, script: Script, k: nat): (v: seq<int>)
    requires k <= |script| && HasWidth(script, |max|)
    ensures |v| == |max|
  {
    seq(|max|, j requires 0 <= j < |max| =>
      if max[j] > AskedSoFar(script, k, j) then max[j] - AskedSoFar(script, k, j) else 0)
  }

  /** All that the other thread takes first. */
  function Bulk(max: seq<int>): (v: seq<int>)
    ensures |v| == |max|
  {
    seq(|max|, j requires 0 <= j < |max| => max[j] + 1)
  }

  /** One unit more of resource `i` than the pool has once the thread has sent message `k`. */
  function OneMore(max: seq<int>, script: Script, k: nat, i: nat): (v: seq<int>)
    requires k < |script| && HasWidth(script, |max|)
    ensures |v| == |max|
  {
    seq(|max|, j requires 0 <= j < |max| => if j == i then Spare(max, script, k)[j] - Returned(script[k])[j] + 1 else 0)
  }

  function Company(max: seq<int>, script: Script, k: nat, i: nat): Config
    requires k < |script| && HasWidth(script, |max|)
  {
    Config(Plus(Plus(NetAt(script, k, |max|), Spare(max, script, k)), Bulk(max)),
           [max, Plus(Bulk(max), OneMore(max, script, k, i))],
           [script, [Bulk(max), OneMore(max, script, k, i)]])
  }

  predicate Troubled(max: seq<int>, script: Script, k: nat, i: nat) {
    && NonNegative(max) && ScriptWithin(max, script)
    && k < |script| && OverAsks(max, script, k) && i < |max| && InHand(script, k, i) != 0
  }

  lemma TroubledHolds(max: seq<int>, script: Script, k: nat, i: nat)
    requires Troubled(max, script, k, i)
    ensures forall j :: 0 <= j < |max| ==> 0 <= InHand(script, k, j) <= Net(script, k, j)
    ensures 1 <= InHand(script, k, i)
  {
    forall j | 0 <= j < |max| ensures 0 <= InHand(script, k, j) <= Net(script, k, j) {
      assert 0 <= Net(script, k, j) && 0 <= Net(script, k + 1, j);
    }
  }

  lemma CompanyIsOk(max: seq<int>, script: Script, k: nat, i: nat)
    requires Troubled(max, script, k, i)
    ensures var c := Company(max, script, k, i);
      ConfigOk(c) && AsksWithinMax(c.max[1], c.scripts[1])
  {
    var c := Company(max, script, k, i);
    TroubledHolds(max, script, k, i);
    var x, y := Bulk(max), OneMore(max, script, k, i);
    assert NonNegative(y);
    forall j | 0 <= j < |max|
      ensures 0 <= max[j] <= c.total[j] && 0 <= c.max[1][j] <= c.total[j]
      ensures Net([x, y], 0, j) == 0 && Net([x, y], 1, j) == x[j] && Net([x, y], 2, j) == x[j] + y[j]
      ensures AskedSoFar([x, y], 2, j) == x[j] + y[j]
    {
      assert 0 <= Net(script, k, j) <= max[j];
      assert Net([x, y], 0, j) == 0 && Net([x, y], 1, j) == x[j];
      assert AskedSoFar([x, y], 1, j) == x[j];
    }
    assert ScriptWithin(c.max[1], [x, y]);
  }

  // ----- the thread alone, until its fateful message

  function Zeros(m: nat): (v: seq<int>)
    ensures |v| == m && forall j :: 0 <= j < m ==> v[j] == 0
  {
    seq(m, _ => 0)
  }

  /** The session in which thread 0 has sent `k` messages, all granted, and thread 1 none. */
  function Alone(c: Config, k: nat): Session
    requires ConfigOk(c) && |c.max| == 2 && k <= |c.scripts[0]|
  {
    var m := |c.total|;
    Session(Master(Pair(c.total, NetAt(c.scripts[0], k, m), Minus(c.max[0], AskedAt(c.scripts[0], k, m)), Zeros(m), c.max[1]), [], 2),
            [k, 0])
  }

  /** What a granted message does to the books of a thread. */
  lemma NextBooks(max: seq<int>, script: Script, k: nat)
    requires k < |script| && HasWidth(script, |max|)
    ensures Plus(Plus(NetAt(script, k, |max|), Returned(script[k])), Asked(script[k])) == NetAt(script, k + 1, |max|)
    ensures Minus(Minus(max, AskedAt(script, k, |max|)), Asked(script[k])) == Minus(max, AskedAt(script, k + 1, |max|))
  {
    forall j | 0 <= j < |max|
      ensures Plus(Plus(NetAt(script, k, |max|), Returned(script[k])), Asked(script[k]))[j] == NetAt(script, k + 1, |max|)[j]
    {
      Parts(script[k], j);
    }
  }

  /** A thread's need never exceeds what its maximum leaves beyond what it holds. */
  lemma NeedCovered(max: seq<int>, script: Script, k: nat, j: nat)
    requires ScriptWithin(max, script) && k <= |script| && j < |max|
    ensures max[j] - AskedSoFar(script, k, j) <= max[j] - Net(script, k, j)
    ensures 0 <= Net(script, k, j) <= max[j] && 0 <= AskedSoFar(script, k, j)
  {
    NetSplits(script, k, j);
    GivenBackGrows(script, k, j);
    AskedGrows(script, 0, k, j);
  }

  lemma {:induction false} GivenBackGrows(script: Script, k: nat, j: nat)
    requires k <= |script| && forall i :: 0 <= i < |script| ==> j < |script[i]|
    ensures 0 <= GivenBackSoFar(script, k, j)
  {
    if k > 0 { GivenBackGrows(script, k - 1, j); }
  }

  lemma AloneStarts(c: Config)
    requires ConfigOk(c) && |c.max| == 2
    ensures Alone(c, 0) == Start(c)
  {
    var m := |c.total|;
    assert NetAt(c.scripts[0], 0, m) == Zeros(m) && Minus(c.max[0], AskedAt(c.scripts[0], 0, m)) == c.max[0];
    assert Minus(Minus(c.total, Zeros(m)), Zeros(m)) == c.total;
    assert c.max == [c.max[0], c.max[1]];
    assert seq(2, _ => seq(m, _ => 0)) == [Zeros(m), Zeros(m)];
    assert seq(2, _ => 0) == [0, 0];
  }

  lemma AloneStep(c: Config, k: nat)
    requires ConfigOk(c) && |c.max| == 2 && k < |c.scripts[0]| && Reachable(c, Alone(c, k))
    ensures Reachable(c, Alone(c, k + 1))
  {
    hide Reachable, Step, Safe;
    var m, max, script := |c.total|, c.max[0], c.scripts[0];
    assert ScriptWithin(max, script);
    var r, h, d, z := script[k], NetAt(script, k, m), Minus(max, AskedAt(script, k, m)), Zeros(m);
    var b := Alone(c, k).master.bank;
    PairMoves(c.total, h, d, z, c.max[1], Returned(r));
    PairMoves(c.total, Plus(h, Returned(r)), d, z, c.max[1], Asked(r));
    NextBooks(max, script, k);
    var h', d' := NetAt(script, k + 1, m), Minus(max, AskedAt(script, k + 1, m));
    forall j | 0 <= j < m
      ensures Asked(r)[j] <= Move(b, 0, Returned(r)).avail[j]
      ensures 0 <= h'[j] && d'[j] <= c.total[j] - h'[j] - z[j] && c.max[1][j] <= c.total[j] - z[j]
    {
      NeedCovered(max, script, k + 1, j);
      Parts(r, j);
    }
    TwoSafe(c.total, h', d', z, c.max[1]);
    GrantedAtOnce(b, 0, r, 2);
    ReachableInv(c, Alone(c, k));
    Go(c, Alone(c, k), 0, Alone(c, k + 1));
  }

  lemma {:induction false} AloneReachable(c: Config, k: nat)
    requires ConfigOk(c) && |c.max| == 2 && k <= |c.scripts[0]|
    ensures Reachable(c, Alone(c, k))
  {
    if k == 0 {
      AloneStarts(c);
      ReachableStart(c);
    } else {
      AloneReachable(c, k - 1);
      AloneStep(c, k - 1);
    }
  }

  // ----- the deadlock

  /** What the thread holds while it waits for message `k`. */
  function InHandAt(script: Script, k: nat, m: nat): (v: seq<int>)
    requires k < |script| && HasWidth(script, m)
    ensures |v| == m && forall j :: 0 <= j < m ==> v[j] == InHand(script, k, j)
  {
    seq(m, j requires 0 <= j < m => InHand(script, k, j))
  }

  /** The session once the other thread has taken its bulk. */
  function Crowded(max: seq<int>, script: Script, k: nat, i: nat): Session
    requires k < |script| && HasWidth(script, |max|)
  {
    var m, c := |max|, Company(max, script, k, i);
    Session(Master(Pair(c.total, NetAt(script, k, m), Minus(max, AskedAt(script, k, m)), Bulk(max), OneMore(max, script, k, i)), [], 2),
            [k, 1])
  }

  /** The session in which both threads wait, for the first `n` of these two requests. */
  function Waiting(max: seq<int>, script: Script, k: nat, i: nat, n: nat): Session
    requires k < |script| && HasWidth(script, |max|) && 1 <= n <= 2
  {
    var m, c := |max|, Company(max, script, k, i);
    var both := [Request(0, Asked(script[k])), Request(1, OneMore(max, script, k, i))];
    Session(Master(Pair(c.total, InHandAt(script, k, m), Minus(max, AskedAt(script, k, m)), Bulk(max), OneMore(max, script, k, i)),
                   both[..n], 2),
            [k + 1, n])
  }

  /** The bulk is a request for more and nothing else. */
  lemma BulkParts(max: seq<int>, y: seq<int>, i: nat)
    requires NonNegative(max) && i < |max| && |y| == |max|
    ensures var x, z := Bulk(max), Zeros(|max|);
      && Returned(x) == z && Asked(x) == x && KindOf(x) == Additional
      && Plus(z, z) == z && Plus(z, x) == x && Minus(Plus(x, y), x) == y
  {
    assert Bulk(max)[i] > 0;
  }

  /** Giving out the bulk leaves the first thread able to finish, and the second after it. */
  lemma BulkFits(max: seq<int>, script: Script, k: nat, i: nat)
    requires Troubled(max, script, k, i)
    ensures var c, m, x := Company(max, script, k, i), |max|, Bulk(max);
      var h, d := NetAt(script, k, m), Minus(max, AskedAt(script, k, m));
      && AtMost(x, Pair(c.total, h, d, Zeros(m), c.max[1]).avail)
      && Safe(Pair(c.total, h, d, x, OneMore(max, script, k, i)))
  {
    TroubledHolds(max, script, k, i);
    var c, m, x, y := Company(max, script, k, i), |max|, Bulk(max), OneMore(max, script, k, i);
    var h, d := NetAt(script, k, m), Minus(max, AskedAt(script, k, m));
    forall j | 0 <= j < m
      ensures x[j] <= Pair(c.total, h, d, Zeros(m), c.max[1]).avail[j] && 0 <= h[j] && 0 <= x[j]
      ensures d[j] <= c.total[j] - h[j] - x[j] && y[j] <= c.total[j] - x[j]
    {
      NeedCovered(max, script, k, j);
    }
    TwoSafe(c.total, h, d, x, y);
  }

  lemma BulkStep(max: seq<int>, script: Script, k: nat, i: nat)
    requires Troubled(max, script, k, i) && ConfigOk(Company(max, script, k, i))
    ensures var c := Company(max, script, k, i);
      Step(Alone(c, k).master, 1, KindOf(Bulk(max)), Bulk(max)) == Crowded(max, script, k, i).master
  {
    hide Step, Safe, Bulk, OneMore, NetAt, AskedAt, Zeros, Plus, Minus, Spare, ConfigOk;
    BulkFits(max, script, k, i);
    BulkParts(max, OneMore(max, script, k, i), i);
    var c, m, x := Company(max, script, k, i), |max|, Bulk(max);
    var h, d, z := NetAt(script, k, m), Minus(max, AskedAt(script, k, m)), Zeros(m);
    PairMoves(c.total, h, d, z, c.max[1], z);
    PairMoves(c.total, h, d, z, c.max[1], x);
    GrantedAtOnce(Alone(c, k).master.bank, 1, x, 2);
  }

  lemma BulkGranted(max: seq<int>, script: Script, k: nat, i: nat)
    requires Troubled(max, script, k, i)
    ensures Reachable(Company(max, script, k, i), Crowded(max, script, k, i))
  {
    hide Reachable, Step, Bulk, OneMore, Pair, Inv, NetAt, AskedAt, Minus, Plus, OverAsks, InHand;
    CompanyIsOk(max, script, k, i);
    BulkStep(max, script, k, i);
    var c := Company(max, script, k, i);
    AloneReachable(c, k);
    ReachableInv(c, Alone(c, k));
    InvShaped(c, Alone(c, k));
    Go(c, Alone(c, k), 1, Crowded(max, script, k, i));
  }

  lemma InvShaped(c: Config, s: Session)
    requires Inv(c, s)
    ensures Shaped(c, s)
  {
  }

  /** Once the thread waits, neither request fits what is left. */
  lemma NeitherFits(max: seq<int>, script: Script, k: nat, i: nat)
    requires Troubled(max, script, k, i)
    ensures var b := Waiting(max, script, k, i, 1).master.bank;
      && !AtMost(Asked(script[k]), b.avail) && !AtMost(OneMore(max, script, k, i), b.avail)
    ensures KindOf(script[k]) == Additional && NonNegative(OneMore(max, script, k, i))
  {
    var r, b := script[k], Waiting(max, script, k, i, 1).master.bank;
    var j :| 0 <= j < |max| && r[j] > 0 && AskedSoFar(script, k + 1, j) > max[j];
    Parts(r, j);
    assert b.avail[j] == Spare(max, script, k)[j] - Returned(r)[j];
    assert Asked(r)[j] > b.avail[j];
    assert OneMore(max, script, k, i)[i] > b.avail[i];
  }

  lemma FirstRefused(max: seq<int>, script: Script, k: nat, i: nat)
    requires Troubled(max, script, k, i)
    ensures Step(Crowded(max, script, k, i).master, 0, KindOf(script[k]), script[k]) == Waiting(max, script, k, i, 1).master
  {
    hide Bulk, OneMore, Spare, Step, AtMost, AskedAt;
    NeitherFits(max, script, k, i);
    var m, c, r := |max|, Company(max, script, k, i), script[k];
    var x, y, d := Bulk(max), OneMore(max, script, k, i), Minus(max, AskedAt(script, k, m));
    assert Plus(NetAt(script, k, m), Returned(r)) == InHandAt(script, k, m);
    PairMoves(c.total, NetAt(script, k, m), d, x, y, Returned(r));
    RefusedAtOnce(Crowded(max, script, k, i).master.bank, [], 0, r, 2);
    var both := [Request(0, Asked(r)), Request(1, y)];
    assert [] + [Request(0, Asked(r))] == both[..1];
  }

  lemma OneMoreParts(max: seq<int>, script: Script, k: nat, i: nat)
    requires Troubled(max, script, k, i)
    ensures var x, y, z := Bulk(max), OneMore(max, script, k, i), Zeros(|max|);
      KindOf(y) == Additional && Asked(y) == y && Returned(y) == z && Plus(x, z) == x
  {
    assert OneMore(max, script, k, i)[i] > 0;
  }

  lemma SecondRefused(max: seq<int>, script: Script, k: nat, i: nat)
    requires Troubled(max, script, k, i)
    ensures var y := OneMore(max, script, k, i);
      Step(Waiting(max, script, k, i, 1).master, 1, KindOf(y), y) == Waiting(max, script, k, i, 2).master
  {
    hide Bulk, OneMore, Spare, Step, AtMost, AskedAt, InHandAt, Returned, Asked, Zeros, Plus, Minus, KindOf;
    NeitherFits(max, script, k, i);
    var m, c, r := |max|, Company(max, script, k, i), script[k];
    var x, y, d, z := Bulk(max), OneMore(max, script, k, i), Minus(max, AskedAt(script, k, m)), Zeros(m);
    OneMoreParts(max, script, k, i);
    PairMoves(c.total, InHandAt(script, k, m), d, x, y, z);
    var both := [Request(0, Asked(r)), Request(1, y)];
    assert both[..1] + [Request(1, y)] == both[..2];
    RefusedAtOnce(Waiting(max, script, k, i, 1).master.bank, both[..1], 1, y, 2);
  }

  lemma FirstWaits(max: seq<int>, script: Script, k: nat, i: nat)
    requires Troubled(max, script, k, i)
    ensures Reachable(Company(max, script, k, i), Waiting(max, script, k, i, 1))
  {
    hide Reachable, Step, Bulk, OneMore, Pair, Inv, Asked, KindOf, NetAt, AskedAt, InHandAt, Minus, Plus, OverAsks, ConfigOk, InHand;
    BulkGranted(max, script, k, i);
    FirstRefused(max, script, k, i);
    var c, s := Company(max, script, k, i), Crowded(max, script, k, i);
    ReachableInv(c, s);
    InvShaped(c, s);
    Go(c, s, 0, Waiting(max, script, k, i, 1));
  }

  lemma SecondWaits(max: seq<int>, script: Script, k: nat, i: nat)
    requires Troubled(max, script, k, i)
    ensures Reachable(Company(max, script, k, i), Waiting(max, script, k, i, 2))
  {
    hide Reachable, Step, Bulk, OneMore, Pair, Inv, Asked, KindOf, NetAt, AskedAt, InHandAt, Minus, Plus, OverAsks, ConfigOk, InHand;
    FirstWaits(max, script, k, i);
    SecondRefused(max, script, k, i);
    var c, s := Company(max, script, k, i), Waiting(max, script, k, i, 1);
    ReachableInv(c, s);
    InvShaped(c, s);
    Go(c, s, 1, Waiting(max, script, k, i, 2));
  }

  /** The two threads deadlock. */
  lemma TroubleBlocks(max: seq<int>, script: Script, k: nat, i: nat)
    requires Troubled(max, script, k, i)
    ensures var (c, s) := (Company(max, script, k, i), Waiting(max, script, k, i, 2));
      Reachable(c, s) && Blocked(c, s)
  {
    hide Reachable, Bulk, OneMore, Pair, Inv, Asked;
    SecondWaits(max, script, k, i);
    var c, s := Company(max, script, k, i), Waiting(max, script, k, i, 2);
    ReachableInv(c, s);
    InvShaped(c, s);
    assert s.master.pending[0].thread == 0 && s.master.pending[1].thread == 1;
    assert !HasQuit(c, s, 0);
  }

  // ----- the verdict

  /** Thread 0 plays `script` in the company of threads that do no harm. */
  predicate InCompany(max: seq<int>, script: Script, c: Config) {
    && ConfigOk(c) && |c.max| > 0 && c.max[0] == max && c.scripts[0] == script
    && forall t :: 1 <= t < |c.max| ==> Harmless(c.max[t], c.scripts[t])
  }

  ghost predicate CanDeadlock(max: seq<int>, script: Script) {
    exists c, s :: InCompany(max, script, c) && Reachable(c, s) && Blocked(c, s)
  }

  /** A script can deadlock, in some company of harmless threads, if and only if it somewhere asks for more
      than its maximum, all told, while it holds something. */
  lemma DeadlocksIffHarmful(max: seq<int>, script: Script)
    requires NonNegative(max) && ScriptWithin(max, script)
    ensures CanDeadlock(max, script) <==> !Harmless(max, script)
  {
    hide Reachable, Blocked, Waiting;
    if !Harmless(max, script) {
      var k :| 0 <= k < |script| && OverAsks(max, script, k) && !forall j :: 0 <= j < |max| ==> InHand(script, k, j) == 0;
      var i :| 0 <= i < |max| && InHand(script, k, i) != 0;
      var c := Company(max, script, k, i);
      CompanyIsOk(max, script, k, i);
      WithinMaxIsHarmless(c.max[1], c.scripts[1]);
      TroubleBlocks(max, script, k, i);
      assert InCompany(max, script, c);
    } else {
      forall c, s | InCompany(max, script, c) && Reachable(c, s) ensures !Blocked(c, s) {
        assert AllHarmless(c);
        NeverBlocked(c, s);
      }
    }
  }
}
