/** A session of the script generator that deadlocks in spite of the safety check, played move by move on
    fifteen units of one resource and three threads with the same script. */
module BankerDeadlock {

  // Fifteen units of one resource and three threads with maximum six. Each thread first takes and gives back six
  // units, which leaves its NEED at zero for good; the check then sees nothing wrong with handing out all fifteen
  // units, five to each, and the last unit each one asks for never comes.

  import opened Bank
  import opened PendingPass
  import opened MasterStep
  import opened BankerSession

  /** What the generator promises of a system: totals of 15 to 30, maxima below half of that. */
  predicate IsGenerated(c: Config) {
    && ConfigOk(c)
    && (forall j :: 0 <= j < |c.total| ==> 15 <= c.total[j] <= 30)
    && (forall t, j :: 0 <= t < |c.max| && 0 <= j < |c.total| ==> c.max[t][j] < c.total[j] / 2)
    && (forall t :: 0 <= t < |c.scripts| ==> 5 <= |c.scripts[t]| <= 10)
  }

  const TAKE_TWICE: Script := [[6], [-6], [5], [1], [-6]]

  const VICTIM := Config([15], [[6], [6], [6]], [TAKE_TWICE, TAKE_TWICE, TAKE_TWICE])

  lemma VictimIsGenerated()
    ensures IsGenerated(VICTIM)
  {
    VictimStaysWithin();
  }

  lemma VictimStaysWithin()
    ensures ScriptWithin([6], TAKE_TWICE)
  {
    forall k | 0 <= k <= 5 ensures 0 <= Net(TAKE_TWICE, k, 0) <= 6 {
      assert Net(TAKE_TWICE, 0, 0) == 0;
      assert Net(TAKE_TWICE, 1, 0) == 6;
      assert Net(TAKE_TWICE, 2, 0) == 0;
      assert Net(TAKE_TWICE, 3, 0) == 5;
      assert Net(TAKE_TWICE, 4, 0) == 6;
      assert Net(TAKE_TWICE, 5, 0) == 0;
    }
    assert ScriptWithin([6], TAKE_TWICE);
  }

  type Triple = (int, int, int)

  function Add(x: Triple, t: nat, d: int): Triple {
    (x.0 + (if t == 0 then d else 0), x.1 + (if t == 1 then d else 0), x.2 + (if t == 2 then d else 0))
  }

  /** Three threads and one resource, spelled out. */
  function Tables(avail: int, alloc: Triple, need: Triple): WellShaped {
    Bank([avail], [[alloc.0], [alloc.1], [alloc.2]], [[need.0], [need.1], [need.2]])
  }

  datatype Scene = Scene(avail: int, alloc: Triple, need: Triple, queue: seq<Request>, pos: Triple) {
    predicate Ok() {
      && 0 <= pos.0 <= 4 && 0 <= pos.1 <= 4 && 0 <= pos.2 <= 4
      && 0 <= alloc.0 && 0 <= alloc.1 && 0 <= alloc.2
      && QueueOk(Tables(avail, alloc, need), queue)
    }

    function Session(): Session
      requires Ok()
    {
      BankerSession.Session(Master(Tables(avail, alloc, need), queue, 3), [pos.0, pos.1, pos.2])
    }

    function At(t: nat): int
      requires t < 3
    {
      if t == 0 then pos.0 else if t == 1 then pos.1 else pos.2
    }
  }

  lemma SceneShaped(s: Scene)
    requires s.Ok()
    ensures Shaped(VICTIM, s.Session())
  {
    VictimIsGenerated();
  }

  lemma GrantTables(avail: int, alloc: Triple, need: Triple, t: nat, d: int)
    requires t < 3
    ensures Grant(Tables(avail, alloc, need), t, [d]) == Tables(avail - d, Add(alloc, t, d), Add(need, t, -d))
    ensures Move(Tables(avail, alloc, need), t, [d]) == Tables(avail - d, Add(alloc, t, d), need)
  {
    var b := Tables(avail, alloc, need);
    assert Minus(b.avail, [d]) == [avail - d];
    assert Plus(b.alloc[t], [d]) == [b.alloc[t][0] + d];
    assert Minus(b.need[t], [d]) == [b.need[t][0] - d];
  }

  lemma MessageAt(s: Scene, t: nat)
    requires s.Ok() && t < 3 && !IsWaiting(s.queue, t)
    ensures Shaped(VICTIM, s.Session()) && CanMove(VICTIM, s.Session(), t)
    ensures var d := TAKE_TWICE[s.At(t)]; Message(VICTIM, s.Session(), t) == (if d[0] > 0 then Additional else Release, d)
  {
    SceneShaped(s);
    var d := TAKE_TWICE[s.At(t)];
    assert d[0] > 0 || KindOf(d) == Release;
  }

  lemma RequestParts(d: int)
    requires d > 0
    ensures Returned([d]) == [0] && Asked([d]) == [d]
  {
  }

  /** With an empty queue, a request that fits and leaves everybody's need covered is granted at once. */
  lemma GrantedAtOnce(b: WellShaped, t: nat, d: int, c: WellShaped)
    requires t < b.Threads() && b.Types() == 1 && 0 < d <= b.avail[0] && Move(b, t, [0]) == b
    requires c == Grant(b, t, [d]) && c.HoldsNonNegative()
    requires forall u :: 0 <= u < c.Threads() ==> AtMost(c.need[u], c.avail)
    ensures Step(Master(b, [], 3), t, Additional, [d]) == Master(c, [], 3)
  {
    RequestParts(d);
    AllFitSafe(c);
    var q := [Request(t, [d])];
    assert [] + q == q;
    assert Grantable(b, q[0]);
    assert Pass(b, q) == Outcome(c, [], true);
  }

  /** With nothing available, a request for something joins a queue of such requests. */
  lemma RefusedAtOnce(b: WellShaped, q: seq<Request>, t: nat, d: int)
    requires t < b.Threads() && b.Types() == 1 && 0 < d && b.avail[0] == 0 && Move(b, t, [0]) == b
    requires QueueOk(b, q) && forall i :: 0 <= i < |q| ==> q[i].amount[0] > 0
    ensures Step(Master(b, q, 3), t, Additional, [d]) == Master(b, q + [Request(t, [d])], 3)
  {
    RequestParts(d);
    var longer := q + [Request(t, [d])];
    forall i | 0 <= i < |longer| ensures !Grantable(b, longer[i]) {
      assert longer[i].amount[0] > 0;
    }
    PassRefusingAll(b, longer);
  }

  lemma GrantedStep(s: Scene, t: nat, d: int, s': Scene)
    requires s.Ok() && t < 3 && s.queue == [] && 0 < d <= s.avail
    requires s' == Scene(s.avail - d, Add(s.alloc, t, d), Add(s.need, t, -d), [], Add(s.pos, t, 1)) && s'.Ok()
    requires s'.need.0 <= s'.avail && s'.need.1 <= s'.avail && s'.need.2 <= s'.avail
    ensures Step(s.Session().master, t, Additional, [d]) == s'.Session().master
  {
    hide Step;
    GrantTables(s.avail, s.alloc, s.need, t, 0);
    GrantTables(s.avail, s.alloc, s.need, t, d);
    GrantedAtOnce(Tables(s.avail, s.alloc, s.need), t, d, Tables(s'.avail, s'.alloc, s'.need));
  }

  lemma Granted(s: Scene, t: nat, d: int, s': Scene)
    requires s.Ok() && t < 3 && s.queue == [] && TAKE_TWICE[s.At(t)] == [d] && 0 < d <= s.avail
    requires s' == Scene(s.avail - d, Add(s.alloc, t, d), Add(s.need, t, -d), [], Add(s.pos, t, 1)) && s'.Ok()
    requires s'.need.0 <= s'.avail && s'.need.1 <= s'.avail && s'.need.2 <= s'.avail
    requires Reachable(VICTIM, s.Session())
    ensures Reachable(VICTIM, s'.Session())
  {
    hide Reachable, Step, VICTIM, TAKE_TWICE, Shaped, CanMove, HasQuit, Message;
    MessageAt(s, t);
    GrantedStep(s, t, d, s');
    assert StepTo(VICTIM, s.Session(), t, s'.Session());
    ReachableNext(VICTIM, s.Session(), s'.Session());
  }

  lemma Released(s: Scene, t: nat, d: int, s': Scene)
    requires s.Ok() && t < 3 && s.queue == [] && TAKE_TWICE[s.At(t)] == [d] && d <= 0
    requires s' == Scene(s.avail - d, Add(s.alloc, t, d), s.need, [], Add(s.pos, t, 1)) && s'.Ok()
    requires Reachable(VICTIM, s.Session())
    ensures Reachable(VICTIM, s'.Session())
  {
    hide Reachable;
    MessageAt(s, t);
    GrantTables(s.avail, s.alloc, s.need, t, d);
    assert StepTo(VICTIM, s.Session(), t, s'.Session());
    ReachableNext(VICTIM, s.Session(), s'.Session());
  }

  lemma Refused(s: Scene, t: nat, d: int, s': Scene)
    requires s.Ok() && t < 3 && !IsWaiting(s.queue, t) && TAKE_TWICE[s.At(t)] == [d] && 0 < d && s.avail == 0
    requires forall i :: 0 <= i < |s.queue| ==> s.queue[i].amount[0] > 0
    requires s' == Scene(0, s.alloc, s.need, s.queue + [Request(t, [d])], Add(s.pos, t, 1)) && s'.Ok()
    requires Reachable(VICTIM, s.Session())
    ensures Reachable(VICTIM, s'.Session())
  {
    hide Reachable, Step;
    MessageAt(s, t);
    GrantTables(s.avail, s.alloc, s.need, t, 0);
    RefusedAtOnce(Tables(0, s.alloc, s.need), s.queue, t, d);
    assert StepTo(VICTIM, s.Session(), t, s'.Session());
    ReachableNext(VICTIM, s.Session(), s'.Session());
  }

  lemma StartScene(s: Scene)
    requires s == Scene(15, (0, 0, 0), (6, 6, 6), [], (0, 0, 0)) && ConfigOk(VICTIM)
    ensures s.Session() == Start(VICTIM)
  {
    var a, b := s.Session(), Start(VICTIM);
    assert forall t :: 0 <= t < 3 ==> b.master.bank.alloc[t] == [0];
    assert a.master.bank.alloc == b.master.bank.alloc && a.pos == b.pos;
  }

  /** A generated session, and a state it can reach in which all three threads wait for ever. */
  lemma GeneratedSessionDeadlocks()
    ensures IsGenerated(VICTIM)
    ensures exists s :: Reachable(VICTIM, s) && Blocked(VICTIM, s)
  {
    hide Reachable, Blocked;
    VictimIsGenerated();
    var s0 := Scene(15, (0, 0, 0), (6, 6, 6), [], (0, 0, 0));
    ReachableStart(VICTIM);
    StartScene(s0);
    var s1 := Scene(9, (6, 0, 0), (0, 6, 6), [], (1, 0, 0));
    Granted(s0, 0, 6, s1);
    var s2 := Scene(15, (0, 0, 0), (0, 6, 6), [], (2, 0, 0));
    Released(s1, 0, -6, s2);
    var s3 := Scene(9, (0, 6, 0), (0, 0, 6), [], (2, 1, 0));
    Granted(s2, 1, 6, s3);
    var s4 := Scene(15, (0, 0, 0), (0, 0, 6), [], (2, 2, 0));
    Released(s3, 1, -6, s4);
    var s5 := Scene(9, (0, 0, 6), (0, 0, 0), [], (2, 2, 1));
    Granted(s4, 2, 6, s5);
    var s6 := Scene(15, (0, 0, 0), (0, 0, 0), [], (2, 2, 2));
    Released(s5, 2, -6, s6);
    var _ := NothingLeft(s6);
  }

  lemma NothingLeft(s6: Scene) returns (s: Session)
    requires s6 == Scene(15, (0, 0, 0), (0, 0, 0), [], (2, 2, 2)) && Reachable(VICTIM, s6.Session())
    ensures Reachable(VICTIM, s) && Blocked(VICTIM, s)
  {
    hide Reachable, Blocked;
    var s7 := Scene(10, (5, 0, 0), (-5, 0, 0), [], (3, 2, 2));
    Granted(s6, 0, 5, s7);
    var s8 := Scene(5, (5, 5, 0), (-5, -5, 0), [], (3, 3, 2));
    Granted(s7, 1, 5, s8);
    var s9 := Scene(0, (5, 5, 5), (-5, -5, -5), [], (3, 3, 3));
    Granted(s8, 2, 5, s9);
    var s10 := s9.(queue := [Request(0, [1])], pos := (4, 3, 3));
    Refused(s9, 0, 1, s10);
    var s11 := s9.(queue := [Request(0, [1]), Request(1, [1])], pos := (4, 4, 3));
    Refused(s10, 1, 1, s11);
    var s12 := s9.(queue := [Request(0, [1]), Request(1, [1]), Request(2, [1])], pos := (4, 4, 4));
    Refused(s11, 2, 1, s12);
    AllWait(s12);
    s := s12.Session();
  }

  lemma AllWait(s: Scene)
    requires s.Ok() && s.queue == [Request(0, [1]), Request(1, [1]), Request(2, [1])] && s.pos == (4, 4, 4)
    ensures Blocked(VICTIM, s.Session())
  {
    SceneShaped(s);
    assert !HasQuit(VICTIM, s.Session(), 0);
    forall t | 0 <= t < 3 ensures IsWaiting(s.queue, t) {
      assert s.queue[t].thread == t;
    }
  }
}
