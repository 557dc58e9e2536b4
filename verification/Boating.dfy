/** Boats and visitors, as atomic steps of any number of threads in any interleaving; what holds of all
    interleavings is proved apart from the steps. */
module Boating {

  // They meet through two counting semaphores, a scan of the boats and one two-party barrier per boat. P takes a
  // token or blocks; V returns one and, when somebody is blocked, wakes one of them, whichever the scheduler
  // likes; there are no spurious wake-ups. A visitor who scans and finds no boat sleeps and scans again, which is
  // not a move.

  // ----- counting

  function Count<T>(s: seq<T>, p: T -> bool): nat {
    if s == [] then 0 else (if p(s[0]) then 1 else 0) + Count(s[1..], p)
  }

  lemma {:induction false} CountUpdate<T>(s: seq<T>, i: nat, x: T, p: T -> bool)
    requires i < |s|
    ensures Count(s[i := x], p) == Count(s, p) - (if p(s[i]) then 1 else 0) + (if p(x) then 1 else 0)
  {
    if i == 0 {
      assert s[0 := x][1..] == s[1..];
    } else {
      assert s[i := x][1..] == s[1..][i - 1 := x];
      CountUpdate(s[1..], i - 1, x, p);
    }
  }

  lemma {:induction false} CountBounds<T>(s: seq<T>, p: T -> bool)
    ensures Count(s, p) == 0 <==> forall i :: 0 <= i < |s| ==> !p(s[i])
    ensures Count(s, p) <= |s|
    ensures Count(s, p) == |s| <==> forall i :: 0 <= i < |s| ==> p(s[i])
  {
    if s != [] {
      CountBounds(s[1..], p);
      assert forall i :: 1 <= i < |s| ==> s[i] == s[1..][i - 1];
    }
  }

  // ----- threads

  /** Where a boat thread stands.  Carrying holds the visitor and the time it has read from its slots. */
  datatype BoatAt =
    Announcing | Asking | Blocked | Opening | Opened | AtBarrier | Boarded | Carrying(who: int, howLong: int) | Checking | Gone

  /** Who waits at a boat's two-party barrier. */
  datatype Waiter = Nobody | TheBoat | AVisitor(v: nat)

  /** `available`, `visitor` and `time` are the boat's slots of BA, BC and BT; visitors are numbered from 1,
      and -1 stands for none. */
  datatype Boat = Boat(at: BoatAt, available: bool, visitor: int, time: int, pier: Waiter)

  datatype VisitorAt = Sightseeing | Wanting | Stopped | Looking | Found(boat: nat) | OnPier(boat: nat) | Left

  datatype Visitor = Visitor(at: VisitorAt, rideTime: int)

  /** The values of the two semaphores, the count of completed rides, the last boat's number (from 1, -1
      for none), and the completed rides with their times. */
  datatype State = State(
    boats: seq<Boat>, visitors: seq<Visitor>, boatSem: int, riderSem: int,
    completed: nat, lastBoat: int, rides: seq<(int, int)>)

  function Start(m: nat, rideTimes: seq<int>): State {
    State(seq(m, _ => Boat(Announcing, false, -1, 0, Nobody)),
          seq(|rideTimes|, v requires 0 <= v < |rideTimes| => Visitor(Sightseeing, rideTimes[v])),
          0, 0, 0, -1, [])
  }

  function SetBoat(s: State, b: nat, x: Boat): State
    requires b < |s.boats|
  {
    s.(boats := s.boats[b := x])
  }

  function SetVisitor(s: State, v: nat, at: VisitorAt): State
    requires v < |s.visitors|
  {
    s.(visitors := s.visitors[v := s.visitors[v].(at := at)])
  }

  // ----- the steps of a boat

  predicate SomeStopped(s: State) { exists v :: 0 <= v < |s.visitors| && s.visitors[v].at == Stopped }

  predicate SomeBlocked(s: State) { exists b :: 0 <= b < |s.boats| && s.boats[b].at == Blocked }

  /** V(rider) wakes a stopped visitor, `w`, when the new value says there is one. */
  predicate RiderWake(s: State, w: nat) {
    s.riderSem + 1 <= 0 && SomeStopped(s) ==> w < |s.visitors| && s.visitors[w].at == Stopped
  }

  function Announce(s: State, b: nat, w: nat): State
    requires b < |s.boats| && RiderWake(s, w)
  {
    var s1 := SetBoat(s.(riderSem := s.riderSem + 1), b, s.boats[b].(at := Asking));
    if s.riderSem + 1 <= 0 && SomeStopped(s) then SetVisitor(s1, w, Looking) else s1
  }

  /** P(boat). */
  function AskVisitor(s: State, b: nat): State
    requires b < |s.boats|
  {
    SetBoat(s.(boatSem := s.boatSem - 1), b, s.boats[b].(at := if s.boatSem - 1 < 0 then Blocked else Opening))
  }

  function Open(s: State, b: nat): State
    requires b < |s.boats|
  {
    SetBoat(s, b, s.boats[b].(at := Opened, available := true, visitor := -1))
  }

  /** The second to arrive at a barrier lets the first go on. */
  function Release(s: State, b: nat): State
    requires b < |s.boats|
  {
    match s.boats[b].pier
    case Nobody => s
    case TheBoat => SetBoat(s, b, s.boats[b].(at := Boarded, pier := Nobody))
    case AVisitor(v) =>
      var s1 := SetBoat(s, b, s.boats[b].(pier := Nobody));
      if v < |s.visitors| then SetVisitor(s1, v, Left) else s1
  }

  function BoatArrives(s: State, b: nat): (s': State)
    requires b < |s.boats|
  {
    if s.boats[b].pier == Nobody then SetBoat(s, b, s.boats[b].(at := AtBarrier, pier := TheBoat))
    else
      var s1 := Release(s, b);
      SetBoat(s1, b, s1.boats[b].(at := Boarded))
  }

  function ReadVisitor(s: State, b: nat): State
    requires b < |s.boats|
  {
    var x := s.boats[b];
    SetBoat(s, b, x.(available := false, at := if x.visitor != -1 then Carrying(x.visitor, x.time) else Announcing))
  }

  function EndRide(s: State, b: nat): State
    requires b < |s.boats| && s.boats[b].at.Carrying?
  {
    var x := s.boats[b];
    var done := s.completed + 1;
    SetBoat(s.(completed := done, lastBoat := if done == |s.visitors| then b + 1 else s.lastBoat,
               rides := s.rides + [(x.at.who, x.at.howLong)]),
            b, x.(at := Checking))
  }

  function CheckEnd(s: State, b: nat): State
    requires b < |s.boats|
  {
    SetBoat(s, b, s.boats[b].(at := if s.completed == |s.visitors| then Gone else Announcing))
  }

  // ----- the steps of a visitor

  predicate BoatWake(s: State, w: nat) {
    s.boatSem + 1 <= 0 && SomeBlocked(s) ==> w < |s.boats| && s.boats[w].at == Blocked
  }

  function CallBoat(s: State, v: nat, w: nat): State
    requires v < |s.visitors| && BoatWake(s, w)
  {
    var s1 := SetVisitor(s.(boatSem := s.boatSem + 1), v, Wanting);
    if s.boatSem + 1 <= 0 && SomeBlocked(s) then SetBoat(s1, w, s.boats[w].(at := Opening)) else s1
  }

  /** P(rider). */
  function AskRide(s: State, v: nat): State
    requires v < |s.visitors|
  {
    SetVisitor(s.(riderSem := s.riderSem - 1), v, if s.riderSem - 1 < 0 then Stopped else Looking)
  }

  predicate Claimable(x: Boat) { x.available && x.visitor == -1 }

  /** The first claimable boat from place `i` on, or the number of boats. */
  function FirstClaimable(boats: seq<Boat>, i: nat): (r: nat)
    requires i <= |boats|
    ensures i <= r <= |boats|
    ensures forall j :: i <= j < r ==> !Claimable(boats[j])
    ensures r < |boats| ==> Claimable(boats[r])
    decreases |boats| - i
  {
    if i == |boats| || Claimable(boats[i]) then i else FirstClaimable(boats, i + 1)
  }

  /** The scan of a visitor over the two arrays. */
  method FindBoat(available: array<bool>, visitor: array<int>, ghost boats: seq<Boat>) returns (found: bool, i: nat)
    requires available.Length == visitor.Length == |boats|
    requires forall b :: 0 <= b < |boats| ==> available[b] == boats[b].available && visitor[b] == boats[b].visitor
    ensures found <==> FirstClaimable(boats, 0) < |boats|
    ensures found ==> i == FirstClaimable(boats, 0)
  {
    found, i := false, 0;
    while i < available.Length && !found
      invariant i <= |boats|
      invariant found ==> i < |boats| && Claimable(boats[i])
      invariant forall j :: 0 <= j < i ==> !Claimable(boats[j])
      decreases |boats| - i, !found
    {
      if available[i] && visitor[i] == -1 {
        found := true;
      } else {
        i := i + 1;
      }
    }
  }

  function Claim(s: State, v: nat): State
    requires v < |s.visitors| && FirstClaimable(s.boats, 0) < |s.boats|
  {
    var b := FirstClaimable(s.boats, 0);
    SetVisitor(SetBoat(s, b, s.boats[b].(visitor := v + 1, time := s.visitors[v].rideTime)), v, Found(b))
  }

  function VisitorArrives(s: State, v: nat, b: nat): State
    requires v < |s.visitors| && b < |s.boats|
  {
    if s.boats[b].pier == Nobody then SetVisitor(SetBoat(s, b, s.boats[b].(pier := AVisitor(v))), v, OnPier(b))
    else SetVisitor(Release(s, b), v, Left)
  }

  // ----- moves

  /** A step of one thread; `woken` names the thread that a V wakes, if it has to wake one. */
  datatype Move = BoatMove(b: nat, woken: nat) | VisitorMove(v: nat, woken: nat)

  predicate CanMove(s: State, m: Move) {
    match m
    case BoatMove(b, w) =>
      b < |s.boats| &&
      (match s.boats[b].at
       case Announcing => RiderWake(s, w)
       case Blocked => false
       case AtBarrier => false
       case Gone => false
       case _ => true)
    case VisitorMove(v, w) =>
      v < |s.visitors| &&
      (match s.visitors[v].at
       case Sightseeing => BoatWake(s, w)
       case Wanting => true
       case Looking => FirstClaimable(s.boats, 0) < |s.boats|
       case Found(b) => b < |s.boats|
       case _ => false)
  }

  function Next(s: State, m: Move): State
    requires CanMove(s, m)
  {
    match m
    case BoatMove(b, w) => (
      match s.boats[b].at
      case Announcing => Announce(s, b, w)
      case Asking => AskVisitor(s, b)
      case Opening => Open(s, b)
      case Opened => BoatArrives(s, b)
      case Boarded => ReadVisitor(s, b)
      case Carrying(_, _) => EndRide(s, b)
      case Checking => CheckEnd(s, b)
      case _ => s)
    case VisitorMove(v, w) => (
      match s.visitors[v].at
      case Sightseeing => CallBoat(s, v, w)
      case Wanting => AskRide(s, v)
      case Looking => Claim(s, v)
      case Found(b) => VisitorArrives(s, v, b)
      case _ => s)
  }

  /** A visitor who is looking takes the open and unclaimed boat with the lowest number, leaves his own number and
      riding time with it, and changes nothing else. */
  lemma LookingClaims(s: State, v: nat, w: nat)
    requires CanMove(s, VisitorMove(v, w)) && s.visitors[v].at == Looking
    ensures var s' := Next(s, VisitorMove(v, w));
      && |s'.visitors| == |s.visitors| && |s'.boats| == |s.boats| && s'.visitors[v].at.Found?
      && var b := s'.visitors[v].at.boat;
        && b < |s.boats| && s.boats[b].available && s.boats[b].visitor == -1
        && (forall c :: 0 <= c < b ==> !(s.boats[c].available && s.boats[c].visitor == -1))
        && s'.boats[b] == s.boats[b].(visitor := v + 1, time := s.visitors[v].rideTime)
        && (forall c :: 0 <= c < |s.boats| && c != b ==> s'.boats[c] == s.boats[c])
        && (forall u :: 0 <= u < |s.visitors| && u != v ==> s'.visitors[u] == s.visitors[u])
        && s'.visitors[v].rideTime == s.visitors[v].rideTime
        && s' == s.(boats := s'.boats, visitors := s'.visitors)
  {
    assert forall c :: 0 <= c < |s.boats| ==> (Claimable(s.boats[c]) <==> s.boats[c].available && s.boats[c].visitor == -1);
  }
}
