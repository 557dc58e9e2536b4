/** The leader and its followers taking turns. */
module TurnPassing {

  // The steps are atomic. `turn` is the cell M[2] and `slots` the cells M[3] to M[3 + n], the leader's first. A
  // participant spins until the cell shows its own number (or, for the leader, 0), so a spinning read that changes
  // nothing is not a step; reads and writes are sequentially consistent, and followers carry the numbers 1 to n.

  import opened Collections
  import HashTable

  datatype LeaderAt =
    AwaitTurn | Drawing | Passing | AwaitRound | Adding(i: nat, sum: int) | Deciding(total: int) | AwaitExits | Stopped

  datatype FollowerAt = Spinning | Chosen | Picking | Handing | Leaving | Gone

  /** `seen` is what the hash table holds.  `rounds` and `sums` record what happened: the values drawn in
      each round, in order, and the sums printed; `left` who has left, in order. */
  datatype State = State(
    turn: int, slots: seq<int>, leader: LeaderAt, followers: seq<FollowerAt>, seen: set<int>,
    rounds: seq<seq<int>>, sums: seq<int>, left: seq<int>)

  function N(s: State): nat { |s.followers| }

  function Start(n: nat, garbage: seq<int>): State
  {
    State(0, garbage, AwaitTurn, seq(n, _ => Spinning), {}, [], [], [])
  }

  /** Follower `i` is kept at place `i - 1`. */
  function At(s: State, i: int): FollowerAt
    requires 1 <= i <= N(s)
  {
    s.followers[i - 1]
  }

  function SetFollower(s: State, i: int, at: FollowerAt): State
    requires 1 <= i <= N(s)
  {
    s.(followers := s.followers[i - 1 := at])
  }

  function DrawnNow(s: State, v: int): State
    requires s.rounds != []
  {
    s.(rounds := s.rounds[|s.rounds| - 1 := s.rounds[|s.rounds| - 1] + [v]])
  }

  /** A step of the leader, or of a follower; `value` is what it draws, if it draws. */
  datatype Step = Leader(value: int) | Follower(i: int, value: int)

  predicate CanStep(s: State, step: Step) {
    match step
    case Leader(v) =>
      (match s.leader
       case AwaitTurn => s.turn == 0
       case Drawing => 1 <= v <= 99
       case Passing => true
       case AwaitRound => s.turn == 0
       case Adding(_, _) => true
       case Deciding(_) => true
       case AwaitExits => s.turn == 0
       case Stopped => false)
    case Follower(i, v) =>
      1 <= i <= N(s) &&
      (match At(s, i)
       case Spinning => s.turn == i || s.turn == -i
       case Picking => 1 <= v <= 9
       case Gone => false
       case _ => true)
  }

  function LeaderStep(s: State, v: int): State
    requires CanStep(s, Leader(v)) && |s.slots| == N(s) + 1
  {
    match s.leader
    case AwaitTurn => s.(leader := Drawing)
    case Drawing => s.(slots := s.slots[0 := v], leader := Passing, rounds := s.rounds + [[v]])
    case Passing => s.(turn := 1, leader := AwaitRound)
    case AwaitRound => s.(leader := Adding(0, 0))
    case Adding(i, sum) =>
      if i <= N(s) then s.(leader := Adding(i + 1, sum + s.slots[i]))
      else s.(leader := Deciding(sum), sums := s.sums + [sum])
    case Deciding(total) =>
      if total in s.seen then s.(turn := -1, leader := AwaitExits)
      else s.(seen := s.seen + {total}, leader := AwaitTurn)
    case AwaitExits => s.(leader := Stopped)
  }

  function FollowerStep(s: State, i: int, v: int): State
    requires CanStep(s, Follower(i, v)) && |s.slots| == N(s) + 1
  {
    match At(s, i)
    case Spinning => SetFollower(s, i, Chosen)
    case Chosen => SetFollower(s, i, if s.turn == -i then Leaving else Picking)
    case Picking =>
      var s1 := SetFollower(s.(slots := s.slots[i := v]), i, Handing);
      if s.rounds != [] then DrawnNow(s1, v) else s1
    case Handing => SetFollower(s.(turn := if i == N(s) then 0 else i + 1), i, Spinning)
    case Leaving => SetFollower(s.(turn := if i == N(s) then 0 else -(i + 1), left := s.left + [i]), i, Gone)
  }

  function Next(s: State, step: Step): State
    requires CanStep(s, step) && |s.slots| == N(s) + 1
  {
    match step
    case Leader(v) => LeaderStep(s, v)
    case Follower(i, v) => FollowerStep(s, i, v)
  }

  // ----- the invariant

  function SumTo(s: seq<int>, i: nat): int
    requires i <= |s|
  {
    if i == 0 then 0 else SumTo(s, i - 1) + s[i - 1]
  }

  /** A round as the participants draw it: the leader first, then followers 1, 2, ... */
  predicate GoodRound(round: seq<int>, n: nat) {
    && 1 <= |round| <= n + 1
    && 1 <= round[0] <= 99
    && forall i :: 1 <= i < |round| ==> 1 <= round[i] <= 9
  }

  predicate FullRound(round: seq<int>, n: nat) { GoodRound(round, n) && |round| == n + 1 }

  /** Followers other than the one whose turn it is are spinning, or gone. */
  predicate OthersWait(s: State) {
    forall i :: 1 <= i <= N(s) && s.turn != i && s.turn != -i ==> At(s, i) == Spinning || At(s, i) == Gone
  }

  predicate NoneGone(s: State) { forall i :: 1 <= i <= N(s) ==> At(s, i) != Gone && At(s, i) != Leaving }

  /** The round now being played has reached `k` values, and they are the first `k` slots. */
  predicate RoundReached(s: State, k: int) {
    && s.rounds != [] && |s.slots| == N(s) + 1
    && 0 <= k <= N(s) + 1 && |s.rounds[|s.rounds| - 1]| == k
    && GoodRound(s.rounds[|s.rounds| - 1], N(s))
    && s.slots[..k] == s.rounds[|s.rounds| - 1]
  }

  /** All rounds before the last are complete, and their sums are what was printed. */
  predicate PastOk(s: State) {
    && |s.sums| <= |s.rounds|
    && (forall r :: 0 <= r < |s.sums| ==> FullRound(s.rounds[r], N(s)) && s.sums[r] == SumTo(s.rounds[r], N(s) + 1))
  }

  /** Every printed sum but the last is in the table, they are all different, and there is nothing else in it. */
  predicate SeenIs(s: State, k: nat) {
    && k <= |s.sums|
    && Distinct(s.sums[..k])
    && s.seen == Elements(s.sums[..k])
  }

  predicate LeaderOk(s: State) {
    match s.leader
    case AwaitTurn => s.turn == 0 && NoneGone(s) && |s.sums| == |s.rounds| && SeenIs(s, |s.sums|)
    case Drawing => s.turn == 0 && NoneGone(s) && |s.sums| == |s.rounds| && SeenIs(s, |s.sums|)
    case Passing => s.turn == 0 && NoneGone(s) && |s.sums| + 1 == |s.rounds| && SeenIs(s, |s.sums|) && RoundReached(s, 1)
    case AwaitRound =>
      && 0 <= s.turn <= N(s) && NoneGone(s) && |s.sums| + 1 == |s.rounds| && SeenIs(s, |s.sums|)
      && RoundReached(s, if s.turn == 0 then N(s) + 1 else if At(s, s.turn) == Handing then s.turn + 1 else s.turn)
    case Adding(i, sum) =>
      && s.turn == 0 && NoneGone(s) && |s.sums| + 1 == |s.rounds| && SeenIs(s, |s.sums|)
      && RoundReached(s, N(s) + 1) && i <= N(s) + 1 && sum == SumTo(s.slots, i)
    case Deciding(total) =>
      && s.turn == 0 && NoneGone(s) && |s.sums| == |s.rounds| > 0 && SeenIs(s, |s.sums| - 1)
      && total == s.sums[|s.sums| - 1]
    case AwaitExits => 0 <= -s.turn <= N(s) && |s.sums| == |s.rounds| > 0 && SeenIs(s, |s.sums| - 1) && Repeated(s)
    case Stopped => s.turn == 0 && |s.sums| == |s.rounds| > 0 && SeenIs(s, |s.sums| - 1) && Repeated(s)
  }

  predicate Repeated(s: State) { s.sums != [] && s.sums[|s.sums| - 1] in s.seen }

  /** While the leader waits for the exits, exactly the followers before the one in turn have left, in order. */
  predicate ExitsOk(s: State) {
    var k := if s.leader.AwaitExits? || s.leader.Stopped? then (if s.turn == 0 then N(s) else -s.turn - 1) else 0;
    && |s.left| == k
    && (forall j :: 0 <= j < |s.left| ==> s.left[j] == j + 1)
    && (forall i :: 1 <= i <= N(s) ==> (At(s, i) == Gone <==> i <= k))
    && (s.leader.AwaitExits? ==> forall i :: 1 <= i <= N(s) ==> At(s, i) != Picking && At(s, i) != Handing)
  }

  predicate Inv(s: State) {
    && N(s) >= 1 && |s.slots| == N(s) + 1
    && OthersWait(s) && PastOk(s) && LeaderOk(s) && ExitsOk(s)
  }

  lemma StartInv(n: nat, garbage: seq<int>)
    requires n >= 1 && |garbage| == n + 1
    ensures Inv(Start(n, garbage))
  {
    assert Elements<int>([]) == {};
  }

  lemma {:induction false} SumPrefix(a: seq<int>, b: seq<int>, i: nat)
    requires i <= |a| && i <= |b| && a[..i] == b[..i]
    ensures SumTo(a, i) == SumTo(b, i)
  {
    if i > 0 {
      assert a[..i - 1] == a[..i][..i - 1] == b[..i - 1];
      assert a[i - 1] == a[..i][i - 1] == b[i - 1];
      SumPrefix(a, b, i - 1);
    }
  }

  /** A follower that does not spin has the turn. */
  lemma MoverHasTurn(s: State, i: int, v: int)
    requires Inv(s) && CanStep(s, Follower(i, v))
    ensures s.turn == i || s.turn == -i
    ensures s.turn == i ==> s.leader.AwaitRound? && At(s, i) != Leaving
    ensures s.turn == -i ==> s.leader.AwaitExits? && At(s, i) != Picking && At(s, i) != Handing
  {
    assert s.leader.AwaitExits? || s.leader.Stopped? || NoneGone(s);
  }

  lemma FollowerStepInv(s: State, i: int, v: int)
    requires Inv(s) && CanStep(s, Follower(i, v))
    ensures Inv(FollowerStep(s, i, v))
  {
    MoverHasTurn(s, i, v);
    match At(s, i) {
      case Spinning => EarlyInv(s, i, v);
      case Chosen => EarlyInv(s, i, v);
      case Picking => PickingInv(s, i, v);
      case Handing => HandingInv(s, i, v);
      case Leaving => LeavingInv(s, i, v);
    }
  }

  lemma SetFollowerAt(s: State, i: int, at: FollowerAt)
    requires 1 <= i <= N(s)
    ensures N(SetFollower(s, i, at)) == N(s)
    ensures forall j :: 1 <= j <= N(s) ==> At(SetFollower(s, i, at), j) == if j == i then at else At(s, j)
  {
  }

  lemma EarlyInv(s: State, i: int, v: int)
    requires Inv(s) && CanStep(s, Follower(i, v)) && (At(s, i) == Spinning || At(s, i) == Chosen)
    requires s.turn == i || s.turn == -i
    requires s.turn == i ==> s.leader.AwaitRound?
    requires s.turn == -i ==> s.leader.AwaitExits?
    ensures Inv(FollowerStep(s, i, v))
  {
    SetFollowerAt(s, i, FollowerStep(s, i, v).followers[i - 1]);
    hide SetFollower;
    var s' := FollowerStep(s, i, v);
    assert forall j :: 1 <= j <= N(s) && j != i ==> At(s', j) == At(s, j);
  }

  lemma PickingInv(s: State, i: int, v: int)
    requires Inv(s) && CanStep(s, Follower(i, v)) && At(s, i) == Picking && s.turn == i && s.leader.AwaitRound?
    ensures Inv(FollowerStep(s, i, v))
  {
    var s' := FollowerStep(s, i, v);
    assert forall j :: 1 <= j <= N(s) && j != i ==> At(s', j) == At(s, j);
    assert At(s', i) == Handing;
    assert s'.slots[..i + 1] == s.slots[..i] + [v];
  }

  lemma HandingInv(s: State, i: int, v: int)
    requires Inv(s) && CanStep(s, Follower(i, v)) && At(s, i) == Handing && s.turn == i && s.leader.AwaitRound?
    ensures Inv(FollowerStep(s, i, v))
  {
    var s' := FollowerStep(s, i, v);
    assert forall j :: 1 <= j <= N(s) && j != i ==> At(s', j) == At(s, j) == Spinning;
    assert At(s', i) == Spinning;
  }

  lemma LeavingInv(s: State, i: int, v: int)
    requires Inv(s) && CanStep(s, Follower(i, v)) && At(s, i) == Leaving && s.turn == -i && s.leader.AwaitExits?
    ensures Inv(FollowerStep(s, i, v))
  {
    var s' := FollowerStep(s, i, v);
    assert forall j :: 1 <= j <= N(s) && j != i ==> At(s', j) == At(s, j);
    assert At(s', i) == Gone;
  }

  /** What depends on the followers alone is kept by a step of the leader that leaves the turn and them alone. */
  lemma SameFollowers(s: State, s': State)
    requires s'.followers == s.followers && s'.turn == s.turn && s'.left == s.left
    requires OthersWait(s) && ExitsOk(s)
    requires (s.leader.AwaitExits? || s.leader.Stopped?) == (s'.leader.AwaitExits? || s'.leader.Stopped?)
    requires s'.leader.AwaitExits? ==> s.leader.AwaitExits?
    ensures OthersWait(s') && ExitsOk(s')
    ensures NoneGone(s) ==> NoneGone(s')
  {
    assert forall i :: 1 <= i <= N(s) ==> At(s', i) == At(s, i);
  }

  lemma DrawingInv(s: State, v: int)
    requires Inv(s) && CanStep(s, Leader(v)) && s.leader == Drawing
    ensures Inv(LeaderStep(s, v))
  {
    var s' := LeaderStep(s, v);
    SameFollowers(s, s');
    assert s'.slots[..1] == [v];
  }

  lemma AddingInv(s: State, v: int)
    requires Inv(s) && s.leader.Adding?
    ensures Inv(LeaderStep(s, v))
  {
    var s' := LeaderStep(s, v);
    SameFollowers(s, s');
    if s.leader.i > N(s) {
      assert s.slots[..N(s) + 1] == s.slots;
      SumPrefix(s.slots, s.rounds[|s.rounds| - 1], N(s) + 1);
      assert s'.sums[..|s.sums|] == s.sums[..|s.sums|];
    }
  }

  lemma {:induction false} DistinctAppend(sums: seq<int>, k: nat)
    requires k < |sums| && Distinct(sums[..k]) && sums[k] !in Elements(sums[..k])
    ensures Distinct(sums[..k + 1]) && Elements(sums[..k + 1]) == Elements(sums[..k]) + {sums[k]}
  {
    var a, b := sums[..k], sums[..k + 1];
    assert forall i :: 0 <= i < k ==> b[i] == a[i] && a[i] in Elements(a);
    forall x ensures x in Elements(b) <==> x in Elements(a) + {sums[k]} {
      if x in Elements(a) {
        var i :| 0 <= i < k && a[i] == x;
        assert b[i] == x;
      } else if x == sums[k] {
        assert b[k] == x;
      }
    }
  }

  lemma DecidingInv(s: State, v: int)
    requires Inv(s) && s.leader.Deciding?
    ensures Inv(LeaderStep(s, v))
  {
    var s' := LeaderStep(s, v);
    assert forall i :: 1 <= i <= N(s) ==> At(s', i) == At(s, i) == Spinning;
    if s.leader.total !in s.seen {
      SameFollowers(s, s');
      DistinctAppend(s.sums, |s.sums| - 1);
    }
  }

  lemma LeaderStepInv(s: State, v: int)
    requires Inv(s) && CanStep(s, Leader(v))
    ensures Inv(LeaderStep(s, v))
  {
    hide SeenIs, PastOk, RoundReached;
    var s' := LeaderStep(s, v);
    match s.leader {
      case AwaitTurn => SameFollowers(s, s'); LeaderKeeps(s, s');
      case Drawing => DrawingInv(s, v);
      case Passing =>
        assert forall i :: 1 <= i <= N(s) ==> At(s', i) == At(s, i) == Spinning;
        LeaderKeeps(s, s');
      case AwaitRound => SameFollowers(s, s'); LeaderKeeps(s, s');
      case Adding(i, sum) => AddingInv(s, v);
      case Deciding(total) => DecidingInv(s, v);
      case AwaitExits => SameFollowers(s, s'); LeaderKeeps(s, s');
    }
  }

  lemma LeaderKeeps(s: State, s': State)
    requires s' == s.(leader := s'.leader, turn := s'.turn)
    ensures PastOk(s') == PastOk(s)
    ensures forall k :: SeenIs(s', k) == SeenIs(s, k)
    ensures forall k :: RoundReached(s', k) == RoundReached(s, k)
  {
  }

  lemma StepInv(s: State, step: Step)
    requires Inv(s) && CanStep(s, step)
    ensures Inv(Next(s, step)) && N(Next(s, step)) == N(s)
  {
    match step
    case Leader(v) => LeaderStepInv(s, v);
    case Follower(i, v) => FollowerStepInv(s, i, v);
  }

  // ----- one at a time

  function Who(step: Step): int {
    match step
    case Leader(_) => 0
    case Follower(i, _) => i
  }

  /** At every moment at most one participant can take a step, let alone write; and unless the leader has
      stopped, one can. */
  lemma ExactlyOneCanStep(s: State)
    requires Inv(s)
    ensures forall a, b :: CanStep(s, a) && CanStep(s, b) ==> Who(a) == Who(b)
    ensures s.leader != Stopped <==> exists a :: CanStep(s, a)
  {
    forall a, b | CanStep(s, a) && CanStep(s, b) ensures Who(a) == Who(b) {
      if a.Follower? { MoverHasTurn(s, a.i, a.value); }
      if b.Follower? { MoverHasTurn(s, b.i, b.value); }
    }
    if s.leader != Stopped {
      if s.turn == 0 {
        assert CanStep(s, Leader(1));
      } else {
        assert CanStep(s, Follower(if s.turn > 0 then s.turn else -s.turn, 1));
      }
    }
  }

  /** Each round the leader draws first and then the followers in the order of their numbers: whoever draws leaves the
      value in its own slot, as the next of the round, and no other step draws anything. */
  lemma DrawsInOrder(s: State, step: Step)
    requires Inv(s) && CanStep(s, step)
    ensures var s' := Next(s, step);
      if step.Leader? && s.leader == Drawing then
        s'.rounds == s.rounds + [[step.value]] && s'.slots[0] == step.value
      else if step.Follower? && At(s, step.i) == Picking then
        var last := |s.rounds| - 1;
        && last >= 0 && |s.rounds[last]| == step.i
        && s'.rounds == s.rounds[..last] + [s.rounds[last] + [step.value]] && s'.slots[step.i] == step.value
      else s'.rounds == s.rounds && s'.slots == s.slots
  {
    if step.Follower? { MoverHasTurn(s, step.i, step.value); }
  }

  /** Any number from 1 to 99 can be the leader's and any from 1 to 9 a follower's, whenever it is theirs to draw. */
  lemma DrawsAreFree(s: State, i: int, v: int)
    requires Inv(s) && 1 <= i <= N(s)
    ensures s.leader == Drawing ==> (CanStep(s, Leader(v)) <==> 1 <= v <= 99)
    ensures At(s, i) == Picking ==> (CanStep(s, Follower(i, v)) <==> 1 <= v <= 9) && s.turn == i
  {
    if At(s, i) == Picking { MoverHasTurn(s, i, 1); }
  }

  // ----- the sums

  lemma {:induction false} RoundBounds(round: seq<int>, n: nat, i: nat)
    requires FullRound(round, n) && 1 <= i <= n + 1
    ensures i <= SumTo(round, i) <= 99 + 9 * (i - 1)
  {
    if i > 1 { RoundBounds(round, n, i - 1); }
  }

  /** Every sum lies between n + 1 and 9n + 99. */
  lemma SumsInRange(s: State)
    requires PastOk(s)
    ensures forall r :: 0 <= r < |s.sums| ==> N(s) + 1 <= s.sums[r] <= 9 * N(s) + 99
  {
    forall r | 0 <= r < |s.sums| ensures N(s) + 1 <= s.sums[r] <= 9 * N(s) + 99 {
      RoundBounds(s.rounds[r], N(s), N(s) + 1);
    }
  }

  /** So there are at most 8n + 99 different ones. */
  lemma SeenBound(s: State, k: nat)
    requires PastOk(s) && SeenIs(s, k)
    ensures |s.seen| == k <= 8 * N(s) + 99
  {
    SumsInRange(s);
    DistinctSize(s.sums[..k]);
    var shifted: seq<nat> := seq(k, r requires 0 <= r < k => s.sums[r] - N(s) - 1);
    assert forall r :: 0 <= r < k ==> s.sums[..k][r] == s.sums[r];
    DistinctBound(shifted, 8 * N(s) + 99);
  }

  /** The leader's table, of 1000 slots, is large enough for up to 100 followers, and stores every sum at its
      own index. */
  lemma SumsFitTheTable(s: State, r: nat)
    requires PastOk(s) && N(s) <= 100 && r < |s.sums|
    ensures 0 < s.sums[r] < 1000
  {
    SumsInRange(s);
  }

  /** The leader's decision, made with the table: as long as the table holds what the protocol says it has
      seen, it gives the protocol's answer, keeps every sum at its own index, and never fills up. */
  method DecideWithTable(table: HashTable.Table, ghost s: State, total: nat) returns (stop: bool)
    requires Inv(s) && s.leader == Deciding(total) && N(s) <= 100
    requires table.Valid() && table.Keys() == s.seen && table.Direct()
    modifies table.sums, table.occupied
    ensures stop <==> total in s.seen
    ensures stop <==> LeaderStep(s, 0).leader == AwaitExits
    ensures table.Valid() && table.Keys() == LeaderStep(s, 0).seen && table.Direct()
  {
    SeenBound(s, |s.sums| - 1);
    SumsFitTheTable(s, |s.sums| - 1);
    table.RoomLeft();
    stop := table.CheckAndUpdate(total);
  }

  // ----- every run is finite

  function Ahead(at: FollowerAt): nat {
    match at
    case Spinning => 4
    case Chosen => 3
    case Picking => 2
    case Handing => 1
    case Leaving => 1
    case Gone => 0
  }

  function ExitAhead(at: FollowerAt): nat {
    match at
    case Spinning => 3
    case Chosen => 2
    case _ => 1
  }

  /** The steps left until the leader has decided on this round, or until it stops. */
  function RoundLeft(s: State): int {
    var n := N(s);
    match s.leader
    case AwaitTurn => 5 * n + 7
    case Drawing => 5 * n + 6
    case Passing => 5 * n + 5
    case AwaitRound => n + 4 + if 1 <= s.turn <= n then 4 * (n - s.turn) + Ahead(At(s, s.turn)) else 0
    case Adding(i, _) => n + 3 - i
    case Deciding(_) => 1
    case AwaitExits => 1 + if 1 <= -s.turn <= n then 3 * (n + s.turn) + ExitAhead(At(s, -s.turn)) else 0
    case Stopped => 0
  }

  /** A bound on the steps still to come. */
  function StepsLeft(s: State): int {
    var n := N(s);
    if s.leader.AwaitExits? || s.leader.Stopped? then RoundLeft(s)
    else (8 * n + 99 - |s.seen|) * (5 * n + 7) + RoundLeft(s) + 3 * n + 1
  }

  lemma OneRoundLess(x: int, y: int)
    ensures (x - 1) * y == x * y - y
  {
  }

  lemma StepsShrink(s: State, step: Step)
    requires Inv(s) && CanStep(s, step)
    ensures StepsLeft(Next(s, step)) < StepsLeft(s)
  {
    match step
    case Leader(v) => LeaderShrinks(s, v);
    case Follower(i, v) => FollowerShrinks(s, i, v);
  }

  lemma LeaderShrinks(s: State, v: int)
    requires Inv(s) && CanStep(s, Leader(v))
    ensures StepsLeft(LeaderStep(s, v)) < StepsLeft(s)
  {
    var n, s' := N(s), LeaderStep(s, v);
    hide PastOk, SeenIs, RoundReached;
    assert forall i :: 1 <= i <= n ==> At(s', i) == At(s, i);
    match s.leader {
      case AwaitTurn =>
      case Drawing =>
      case Passing => assert At(s, 1) == Spinning;
      case AwaitRound =>
      case Adding(i, sum) =>
      case Deciding(total) => DecidingShrinks(s, v);
      case AwaitExits =>
    }
  }

  lemma DecidingShrinks(s: State, v: int)
    requires Inv(s) && s.leader.Deciding?
    ensures StepsLeft(LeaderStep(s, v)) < StepsLeft(s)
  {
    hide PastOk, SeenIs, RoundReached, ExitsOk;
    SeenBound(s, |s.sums| - 1);
    assert At(s, 1) == Spinning;
    var n, s' := N(s), LeaderStep(s, v);
    var x, y := 8 * n + 99 - |s.seen|, 5 * n + 7;
    assert StepsLeft(s) == x * y + 3 * n + 2;
    if s.leader.total in s.seen {
      assert At(s', 1) == Spinning;
      Positive(x, y);
    } else {
      assert |s'.seen| == |s.seen| + 1;
      OneRoundLess(x, y);
      assert StepsLeft(s') == (x - 1) * y + y + 3 * n + 1;
    }
  }

  lemma Positive(x: nat, y: nat)
    ensures x * y >= 0
  {
  }

  lemma FollowerShrinks(s: State, i: int, v: int)
    requires Inv(s) && CanStep(s, Follower(i, v))
    ensures StepsLeft(FollowerStep(s, i, v)) < StepsLeft(s)
  {
    var s' := FollowerStep(s, i, v);
    MoverHasTurn(s, i, v);
    hide PastOk, SeenIs, RoundReached;
    assert forall j :: 1 <= j <= N(s) && j != i ==> At(s', j) == At(s, j);
    assert At(s', i) == s'.followers[i - 1];
    if i < N(s) { assert At(s, i + 1) == Spinning; }
  }

  lemma StepsLeftPositive(s: State)
    requires Inv(s)
    ensures StepsLeft(s) >= 0
  {
    var k := if s.leader.Deciding? || s.leader.AwaitExits? || s.leader.Stopped? then |s.sums| - 1 else |s.sums|;
    SeenBound(s, k);
    Positive(8 * N(s) + 99 - |s.seen|, 5 * N(s) + 7);
  }

  // ----- whole runs

  ghost predicate Follows(s: State, s': State) {
    exists step :: CanStep(s, step) && |s.slots| == N(s) + 1 && s' == Next(s, step)
  }

  ghost predicate IsRun(n: nat, garbage: seq<int>, run: seq<State>) {
    && n >= 1 && |garbage| == n + 1
    && |run| > 0 && run[0] == Start(n, garbage)
    && forall i :: 0 <= i < |run| - 1 ==> Follows(run[i], run[i + 1])
  }

  lemma FollowsInv(s: State, s': State)
    requires Inv(s) && Follows(s, s')
    ensures Inv(s') && N(s') == N(s) && StepsLeft(s') < StepsLeft(s)
  {
    hide Inv, StepsLeft;
    var step :| CanStep(s, step) && |s.slots| == N(s) + 1 && s' == Next(s, step);
    StepInv(s, step);
    StepsShrink(s, step);
  }

  function MostSteps(n: nat): nat { (8 * n + 99) * (5 * n + 7) + 8 * n + 8 }

  lemma {:induction false} RunInv(n: nat, garbage: seq<int>, run: seq<State>)
    requires IsRun(n, garbage, run)
    ensures Inv(run[|run| - 1]) && N(run[|run| - 1]) == n
    ensures |run| - 1 + StepsLeft(run[|run| - 1]) <= MostSteps(n)
    decreases |run|
  {
    hide Inv, Follows;
    if |run| == 1 {
      StartInv(n, garbage);
    } else {
      hide StepsLeft;
      RunInv(n, garbage, run[..|run| - 1]);
      var before := |run| - 2;
      assert Follows(run[before], run[before + 1]);
      FollowsInv(run[before], run[before + 1]);
    }
  }

  /** Every sum printed adds the leader's value and one value of each follower, all drawn in that round. */
  lemma RunSums(n: nat, garbage: seq<int>, run: seq<State>, r: nat)
    requires IsRun(n, garbage, run) && r < |run[|run| - 1].sums|
    ensures var s := run[|run| - 1];
      && r < |s.rounds| && FullRound(s.rounds[r], n)
      && s.sums[r] == SumTo(s.rounds[r], n + 1)
      && n + 1 <= s.sums[r] <= 9 * n + 99
  {
    RunInv(n, garbage, run);
    SumsInRange(run[|run| - 1]);
  }

  /** Every run ends, within 8n + 100 rounds.  The leader stops at the first sum that repeats an earlier one
      and only there, after followers 1 to n have left, each once and in that order. */
  lemma RunEnds(n: nat, garbage: seq<int>, run: seq<State>)
    requires IsRun(n, garbage, run)
    ensures |run| - 1 <= MostSteps(n)
    ensures var s := run[|run| - 1];
      && |s.sums| <= 8 * n + 100
      && (forall i, j :: 0 <= i < j < |s.sums| - 1 ==> s.sums[i] != s.sums[j])
      && (forall j :: 0 <= j < |s.left| ==> s.left[j] == j + 1)
      && ((forall step :: !CanStep(s, step)) <==> s.leader == Stopped)
      && (s.leader == Stopped ==>
            && |s.left| == n && |s.sums| > 0
            && exists i :: 0 <= i < |s.sums| - 1 && s.sums[i] == s.sums[|s.sums| - 1])
  {
    RunInv(n, garbage, run);
    var s := run[|run| - 1];
    StepsLeftPositive(s);
    ExactlyOneCanStep(s);
    var k := if s.leader.Deciding? || s.leader.AwaitExits? || s.leader.Stopped? then |s.sums| - 1 else |s.sums|;
    SeenBound(s, k);
    assert forall i :: 0 <= i < k ==> s.sums[..k][i] == s.sums[i];
    if s.leader == Stopped {
      assert s.sums[|s.sums| - 1] in Elements(s.sums[..k]);
    }
  }
}
