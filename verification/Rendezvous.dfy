/** What every interleaving keeps, and how every run ends. */
module Rendezvous {
  import opened Boating
  import opened Collections

  // ----- the invariant

  predicate IsBlocked(x: Boat) { x.at == Blocked }
  predicate IsFree(x: Boat) { x.at == Opening || ((x.at == Opened || x.at == AtBarrier) && x.visitor == -1) }
  predicate IsAnnounced(x: Boat) { x.at == Asking || x.at == Blocked || IsFree(x) }
  predicate IsUnderWay(x: Boat) { x.at == Boarded || x.at.Carrying? }

  predicate IsStopped(v: Visitor) { v.at == Stopped }
  predicate IsLooking(v: Visitor) { v.at == Looking }
  predicate IsUnserved(v: Visitor) { v.at == Wanting || v.at == Stopped || v.at == Looking }
  predicate HasLeft(v: Visitor) { v.at == Left }

  function Max0(x: int): nat { if x > 0 then x else 0 }

  /** Tokens.  Blocked threads account for negative semaphores.  A visitor that called for a boat and has
      none is matched by a token or by a boat still free; a boat that announced itself and has no visitor,
      by a token or by a visitor looking for one.  Visitors who left have ridden or are under way. */
  predicate TokensOk(s: State) {
    && Count(s.visitors, IsStopped) == Max0(-s.riderSem)
    && Count(s.boats, IsBlocked) == Max0(-s.boatSem)
    && Count(s.visitors, IsUnserved) == Max0(s.boatSem) + Count(s.boats, IsFree)
    && Count(s.boats, IsAnnounced) == Max0(s.riderSem) + Count(s.visitors, IsLooking)
    && s.completed + Count(s.boats, IsUnderWay) == Count(s.visitors, HasLeft)
  }

  /** The visitor a boat is serving, numbered from 1, or 0. */
  function Serving(x: Boat): int {
    match x.at
    case Opened => if x.visitor == -1 then 0 else x.visitor
    case AtBarrier => if x.visitor == -1 then 0 else x.visitor
    case Boarded => if x.visitor == -1 then 0 else x.visitor
    case Carrying(who, _) => who
    case _ => 0
  }

  function RidingTime(x: Boat): int {
    if x.at.Carrying? then x.at.howLong else x.time
  }

  predicate BoatOk(x: Boat) {
    && x.visitor != 0
    && (x.available <==> x.at == Opened || x.at == AtBarrier || x.at == Boarded)
    && (Claimable(x) ==> x.at == Opened || x.at == AtBarrier)
    && (x.pier == TheBoat <==> x.at == AtBarrier)
    && (x.pier.AVisitor? ==> x.at == Opened && x.visitor == x.pier.v + 1)
    && (IsUnderWay(x) ==> Serving(x) != 0)
  }

  /** Boat `b` serves its visitor as that visitor sees it, for the visitor's own riding time. */
  predicate ServesRight(s: State, b: nat)
    requires b < |s.boats|
  {
    var x := s.boats[b];
    var v := Serving(x) - 1;
    Serving(x) != 0 ==>
      && 0 <= v < |s.visitors|
      && RidingTime(x) == s.visitors[v].rideTime
      && (if IsUnderWay(x) then s.visitors[v].at == Left
          else if x.pier.AVisitor? then s.visitors[v].at == OnPier(b)
          else s.visitors[v].at == Found(b))
  }

  predicate VisitorOk(s: State, v: nat)
    requires v < |s.visitors|
  {
    match s.visitors[v].at
    case Found(b) => b < |s.boats| && Serving(s.boats[b]) == v + 1 && !IsUnderWay(s.boats[b])
    case OnPier(b) => b < |s.boats| && Serving(s.boats[b]) == v + 1 && s.boats[b].pier == AVisitor(v)
    case _ => true
  }

  /** No two boats serve the same visitor. */
  predicate AllDifferent(boats: seq<Boat>) {
    forall b, c :: 0 <= b < c < |boats| && Serving(boats[b]) != 0 ==> Serving(boats[b]) != Serving(boats[c])
  }

  /** Completed rides are by distinct visitors who have left and whom nobody serves any more, each for its
      own time. */
  predicate RidesOk(s: State) {
    && |s.rides| == s.completed
    && (forall i :: 0 <= i < |s.rides| ==> RideOk(s, s.rides[i]))
    && (forall i, j :: 0 <= i < j < |s.rides| ==> s.rides[i].0 != s.rides[j].0)
  }

  predicate RideOk(s: State, r: (int, int)) {
    && 0 <= r.0 - 1 < |s.visitors|
    && s.visitors[r.0 - 1].at == Left && r.1 == s.visitors[r.0 - 1].rideTime
    && forall b :: 0 <= b < |s.boats| ==> Serving(s.boats[b]) != r.0
  }

  predicate EndOk(s: State) {
    && s.completed <= |s.visitors|
    && (s.lastBoat == -1 <==> s.completed < |s.visitors|)
    && (s.lastBoat != -1 ==>
          1 <= s.lastBoat <= |s.boats| && (s.boats[s.lastBoat - 1].at == Checking || s.boats[s.lastBoat - 1].at == Gone))
    && (forall b :: 0 <= b < |s.boats| && s.boats[b].at == Gone ==> s.completed == |s.visitors|)
  }

  predicate BoatsOk(s: State) {
    forall b :: 0 <= b < |s.boats| ==> BoatOk(s.boats[b])
  }

  predicate ServiceOk(s: State) {
    && (forall b :: 0 <= b < |s.boats| ==> ServesRight(s, b))
    && (forall v :: 0 <= v < |s.visitors| ==> VisitorOk(s, v))
    && AllDifferent(s.boats)
    && RidesOk(s)
  }

  predicate Inv(s: State) { TokensOk(s) && BoatsOk(s) && ServiceOk(s) && EndOk(s) }

  // ----- tokens

  lemma SetBoatCounts(s: seq<Boat>, b: nat, x: Boat)
    requires b < |s|
    ensures Count(s[b := x], IsBlocked) == Count(s, IsBlocked) - (if IsBlocked(s[b]) then 1 else 0) + (if IsBlocked(x) then 1 else 0)
    ensures Count(s[b := x], IsFree) == Count(s, IsFree) - (if IsFree(s[b]) then 1 else 0) + (if IsFree(x) then 1 else 0)
    ensures Count(s[b := x], IsAnnounced) == Count(s, IsAnnounced) - (if IsAnnounced(s[b]) then 1 else 0) + (if IsAnnounced(x) then 1 else 0)
    ensures Count(s[b := x], IsUnderWay) == Count(s, IsUnderWay) - (if IsUnderWay(s[b]) then 1 else 0) + (if IsUnderWay(x) then 1 else 0)
  {
    CountUpdate(s, b, x, IsBlocked);
    CountUpdate(s, b, x, IsFree);
    CountUpdate(s, b, x, IsAnnounced);
    CountUpdate(s, b, x, IsUnderWay);
  }

  lemma SetVisitorCounts(s: seq<Visitor>, v: nat, x: Visitor)
    requires v < |s|
    ensures Count(s[v := x], IsStopped) == Count(s, IsStopped) - (if IsStopped(s[v]) then 1 else 0) + (if IsStopped(x) then 1 else 0)
    ensures Count(s[v := x], IsLooking) == Count(s, IsLooking) - (if IsLooking(s[v]) then 1 else 0) + (if IsLooking(x) then 1 else 0)
    ensures Count(s[v := x], IsUnserved) == Count(s, IsUnserved) - (if IsUnserved(s[v]) then 1 else 0) + (if IsUnserved(x) then 1 else 0)
    ensures Count(s[v := x], HasLeft) == Count(s, HasLeft) - (if HasLeft(s[v]) then 1 else 0) + (if HasLeft(x) then 1 else 0)
  {
    CountUpdate(s, v, x, IsStopped);
    CountUpdate(s, v, x, IsLooking);
    CountUpdate(s, v, x, IsUnserved);
    CountUpdate(s, v, x, HasLeft);
  }

  lemma AnnounceTokens(s: State, b: nat, w: nat)
    requires TokensOk(s) && b < |s.boats| && s.boats[b].at == Announcing && RiderWake(s, w)
    ensures TokensOk(Announce(s, b, w))
  {
    hide Count;
    SetBoatCounts(s.boats, b, s.boats[b].(at := Asking));
    CountBounds(s.visitors, IsStopped);
    if s.riderSem + 1 <= 0 && SomeStopped(s) {
      SetVisitorCounts(s.visitors, w, s.visitors[w].(at := Looking));
    }
  }

  lemma CallBoatTokens(s: State, v: nat, w: nat)
    requires TokensOk(s) && v < |s.visitors| && s.visitors[v].at == Sightseeing && BoatWake(s, w)
    ensures TokensOk(CallBoat(s, v, w))
  {
    hide Count;
    SetVisitorCounts(s.visitors, v, s.visitors[v].(at := Wanting));
    CountBounds(s.boats, IsBlocked);
    if s.boatSem + 1 <= 0 && SomeBlocked(s) {
      SetBoatCounts(s.boats, w, s.boats[w].(at := Opening));
    }
  }

  /** The steps of boat `b` that touch no visitor. */
  predicate BoatAlone(s: State, s': State, b: nat) {
    && b < |s.boats|
    && (match s.boats[b].at
        case Asking => s' == AskVisitor(s, b)
        case Opening => s' == Open(s, b)
        case Opened => s.boats[b].pier == Nobody && s' == BoatArrives(s, b)
        case Boarded => s' == ReadVisitor(s, b)
        case Carrying(_, _) => s' == EndRide(s, b)
        case Checking => s' == CheckEnd(s, b)
        case _ => false)
  }

  lemma BoatAloneTokens(s: State, s': State, b: nat)
    requires TokensOk(s) && BoatAlone(s, s', b) && BoatOk(s.boats[b])
    ensures TokensOk(s')
  {
    hide Count;
    SetBoatCounts(s.boats, b, s'.boats[b]);
  }

  lemma AskRideTokens(s: State, v: nat)
    requires TokensOk(s) && v < |s.visitors| && s.visitors[v].at == Wanting
    ensures TokensOk(AskRide(s, v))
  {
    hide Count;
    SetVisitorCounts(s.visitors, v, AskRide(s, v).visitors[v]);
  }

  /** Boat `b` and visitor `v` move on together. */
  lemma PairTokens(s: State, s': State, b: nat, v: nat)
    requires TokensOk(s) && b < |s.boats| && v < |s.visitors|
    requires s' == s.(boats := s'.boats, visitors := s'.visitors)
    requires |s'.boats| == |s.boats| && s'.boats == s.boats[b := s'.boats[b]] && |s'.visitors| == |s.visitors|
    requires s'.visitors == s.visitors[v := s'.visitors[v]]
    requires var x, x', y, y' := s.boats[b], s'.boats[b], s.visitors[v], s'.visitors[v];
      && !IsBlocked(x) && !IsBlocked(x') && !IsStopped(y) && !IsStopped(y')
      && (IsFree(x) <==> IsLooking(y)) && !IsFree(x') && !IsLooking(y')
      && (IsAnnounced(x) <==> IsFree(x)) && !IsAnnounced(x') && (IsUnserved(y) <==> IsLooking(y)) && !IsUnserved(y')
      && !IsUnderWay(x) && !HasLeft(y) && (IsUnderWay(x') <==> HasLeft(y'))
    ensures TokensOk(s')
  {
    hide Count;
    SetBoatCounts(s.boats, b, s'.boats[b]);
    SetVisitorCounts(s.visitors, v, s'.visitors[v]);
  }

  // ----- who serves whom

  /** As far as the boat's visitor is concerned, nothing has changed. */
  predicate Alike(x: Boat, x': Boat) {
    && Serving(x') == Serving(x)
    && (Serving(x) != 0 ==>
          RidingTime(x') == RidingTime(x) && IsUnderWay(x') == IsUnderWay(x)
          && x'.pier.AVisitor? == x.pier.AVisitor? && (x.pier.AVisitor? ==> x'.pier == x.pier))
  }

  lemma ServiceAlike(s: State, s': State)
    requires ServiceOk(s) && s'.visitors == s.visitors && s'.rides == s.rides && s'.completed == s.completed
    requires |s'.boats| == |s.boats| && forall c :: 0 <= c < |s.boats| ==> Alike(s.boats[c], s'.boats[c])
    ensures ServiceOk(s')
  {
    forall c | 0 <= c < |s.boats| ensures ServesRight(s', c) { assert ServesRight(s, c); }
    forall v | 0 <= v < |s.visitors| ensures VisitorOk(s', v) { assert VisitorOk(s, v); }
    forall i | 0 <= i < |s.rides| ensures RideOk(s', s'.rides[i]) { assert RideOk(s, s.rides[i]); }
  }

  /** A visitor nobody serves moves between the stages before finding a boat. */
  predicate Early(at: VisitorAt) { at == Sightseeing || at == Wanting || at == Stopped || at == Looking }

  lemma ServiceEarly(s: State, s': State, v: nat, at: VisitorAt)
    requires ServiceOk(s) && v < |s.visitors| && Early(s.visitors[v].at) && Early(at)
    requires s'.visitors == s.visitors[v := s.visitors[v].(at := at)] && s'.boats == s.boats
    requires s'.rides == s.rides && s'.completed == s.completed
    ensures ServiceOk(s')
  {
    forall c | 0 <= c < |s.boats| ensures ServesRight(s', c) { assert ServesRight(s, c); }
    forall u | 0 <= u < |s.visitors| ensures VisitorOk(s', u) { assert VisitorOk(s, u); }
    forall i | 0 <= i < |s.rides| ensures RideOk(s', s'.rides[i]) { assert RideOk(s, s.rides[i]); }
  }

  /** Boat `b`, serving nobody or `v` already, serves visitor `v` afterwards. */
  lemma ServicePair(s: State, s': State, b: nat, v: nat)
    requires ServiceOk(s) && b < |s.boats| && v < |s.visitors|
    requires |s'.boats| == |s.boats| && s'.boats == s.boats[b := s'.boats[b]]
    requires |s'.visitors| == |s.visitors| && s'.visitors == s.visitors[v := s'.visitors[v]]
    requires s'.rides == s.rides && s'.completed == s.completed
    requires s'.visitors[v].rideTime == s.visitors[v].rideTime && s.visitors[v].at != Left
    requires Serving(s'.boats[b]) == v + 1
    requires forall c :: 0 <= c < |s.boats| && c != b ==> Serving(s.boats[c]) != v + 1
    requires Serving(s.boats[b]) == v + 1 || Serving(s.boats[b]) == 0
    requires ServesRight(s', b) && VisitorOk(s', v)
    ensures ServiceOk(s')
  {
    forall c | 0 <= c < |s.boats| ensures ServesRight(s', c) { assert ServesRight(s, c); }
    forall u | 0 <= u < |s.visitors| ensures VisitorOk(s', u) { assert VisitorOk(s, u); }
    forall i | 0 <= i < |s.rides| ensures RideOk(s', s'.rides[i]) { assert RideOk(s, s.rides[i]); }
  }

  /** Boat `b` has put its visitor ashore: the ride is complete. */
  lemma ServiceRide(s: State, b: nat)
    requires ServiceOk(s) && b < |s.boats| && s.boats[b].at.Carrying? && Serving(s.boats[b]) != 0
    ensures ServiceOk(EndRide(s, b))
  {
    var s', x := EndRide(s, b), s.boats[b];
    assert ServesRight(s, b);
    forall c | 0 <= c < |s.boats| ensures ServesRight(s', c) { assert ServesRight(s, c); }
    forall u | 0 <= u < |s.visitors| ensures VisitorOk(s', u) { assert VisitorOk(s, u); }
    forall i | 0 <= i < |s.rides| ensures RideOk(s', s'.rides[i]) && s.rides[i].0 != x.at.who {
      assert RideOk(s, s.rides[i]);
    }
    assert RideOk(s', (x.at.who, x.at.howLong)) by {
      assert forall c :: 0 <= c < |s.boats| && c != b ==> Serving(s.boats[c]) != x.at.who;
    }
  }

  // ----- every move keeps the invariant

  lemma CompletedBound(s: State)
    requires TokensOk(s)
    ensures s.completed + Count(s.boats, IsUnderWay) <= |s.visitors|
    ensures forall b :: 0 <= b < |s.boats| && IsUnderWay(s.boats[b]) ==> s.completed < |s.visitors|
  {
    CountBounds(s.visitors, HasLeft);
    CountBounds(s.boats, IsUnderWay);
  }

  lemma BoatAloneEnd(s: State, s': State, b: nat)
    requires EndOk(s) && BoatAlone(s, s', b)
    requires IsUnderWay(s.boats[b]) ==> s.completed < |s.visitors|
    ensures EndOk(s')
  {
  }

  lemma BoatAloneAlike(s: State, s': State, b: nat)
    requires BoatsOk(s) && BoatAlone(s, s', b)
    ensures BoatsOk(s')
    ensures !s.boats[b].at.Carrying? ==> Alike(s.boats[b], s'.boats[b])
    ensures s.boats[b].at.Carrying? ==> Serving(s.boats[b]) != 0
  {
    assert BoatOk(s.boats[b]);
  }

  lemma BoatAloneInv(s: State, s': State, b: nat)
    requires Inv(s) && BoatAlone(s, s', b)
    ensures Inv(s')
  {
    hide TokensOk, ServiceOk, EndOk, Alike;
    BoatAloneTokens(s, s', b);
    CompletedBound(s);
    BoatAloneEnd(s, s', b);
    BoatAloneAlike(s, s', b);
    if s.boats[b].at.Carrying? {
      ServiceRide(s, b);
    } else {
      assert forall c :: 0 <= c < |s.boats| && c != b ==> s'.boats[c] == s.boats[c];
      AlikeItself(s);
      ServiceAlike(s, s');
    }
  }

  lemma AlikeItself(s: State)
    ensures forall c :: 0 <= c < |s.boats| ==> Alike(s.boats[c], s.boats[c])
  {
  }

  lemma AnnounceInv(s: State, b: nat, w: nat)
    requires Inv(s) && b < |s.boats| && s.boats[b].at == Announcing && RiderWake(s, w)
    ensures Inv(Announce(s, b, w))
  {
    hide TokensOk, ServiceOk;
    AnnounceTokens(s, b, w);
    var s1 := SetBoat(s, b, s.boats[b].(at := Asking));
    ServiceAlike(s, s1);
    if s.riderSem + 1 <= 0 && SomeStopped(s) {
      ServiceEarly(s1, Announce(s, b, w), w, Looking);
    } else {
      ServiceAlike(s1, Announce(s, b, w));
    }
  }

  lemma CallBoatInv(s: State, v: nat, w: nat)
    requires Inv(s) && v < |s.visitors| && s.visitors[v].at == Sightseeing && BoatWake(s, w)
    ensures Inv(CallBoat(s, v, w))
  {
    hide TokensOk, ServiceOk;
    CallBoatTokens(s, v, w);
    var s1 := SetVisitor(s, v, Wanting);
    ServiceEarly(s, s1, v, Wanting);
    ServiceAlike(s1, CallBoat(s, v, w));
  }

  lemma AskRideInv(s: State, v: nat)
    requires Inv(s) && v < |s.visitors| && s.visitors[v].at == Wanting
    ensures Inv(AskRide(s, v))
  {
    hide TokensOk, ServiceOk;
    AskRideTokens(s, v);
    ServiceEarly(s, AskRide(s, v), v, AskRide(s, v).visitors[v].at);
  }

  /** Nobody but `b` serves the visitor `b` serves, and nobody serves a visitor still looking. */
  lemma OnlyServer(s: State, b: nat, v: nat)
    requires ServiceOk(s) && b < |s.boats| && v < |s.visitors|
    requires Serving(s.boats[b]) == v + 1 || Early(s.visitors[v].at)
    ensures forall c :: 0 <= c < |s.boats| && c != b ==> Serving(s.boats[c]) != v + 1
    ensures Early(s.visitors[v].at) ==> Serving(s.boats[b]) != v + 1
  {
    forall c | 0 <= c < |s.boats| && Early(s.visitors[v].at) ensures Serving(s.boats[c]) != v + 1 {
      assert ServesRight(s, c);
    }
  }

  lemma ClaimedBoat(s: State, v: nat)
    requires BoatsOk(s) && EndOk(s) && v < |s.visitors| && s.visitors[v].at == Looking
    requires FirstClaimable(s.boats, 0) < |s.boats|
    ensures BoatOk(s.boats[FirstClaimable(s.boats, 0)]) && BoatsOk(Claim(s, v)) && EndOk(Claim(s, v))
  {
    assert BoatOk(s.boats[FirstClaimable(s.boats, 0)]);
  }

  lemma ClaimInv(s: State, v: nat)
    requires Inv(s) && v < |s.visitors| && s.visitors[v].at == Looking && FirstClaimable(s.boats, 0) < |s.boats|
    ensures Inv(Claim(s, v))
  {
    hide TokensOk, ServiceOk, BoatsOk, EndOk;
    var b, s' := FirstClaimable(s.boats, 0), Claim(s, v);
    ClaimedBoat(s, v);
    PairTokens(s, s', b, v);
    OnlyServer(s, b, v);
    ServicePair(s, s', b, v);
  }

  lemma FoundBoat(s: State, v: nat, b: nat)
    requires BoatsOk(s) && ServiceOk(s) && v < |s.visitors| && s.visitors[v].at == Found(b)
    ensures b < |s.boats| && BoatOk(s.boats[b])
    ensures var x := s.boats[b];
      && (x.at == Opened || x.at == AtBarrier) && x.visitor == v + 1 && x.time == s.visitors[v].rideTime
      && !x.pier.AVisitor?
  {
    assert VisitorOk(s, v) && ServesRight(s, b);
  }

  lemma PierVisitor(s: State, b: nat)
    requires BoatsOk(s) && ServiceOk(s) && b < |s.boats| && s.boats[b].at == Opened && s.boats[b].pier != Nobody
    ensures var x := s.boats[b];
      && BoatOk(x) && x.pier.AVisitor? && x.visitor == x.pier.v + 1
      && x.pier.v < |s.visitors| && s.visitors[x.pier.v].at == OnPier(b) && x.time == s.visitors[x.pier.v].rideTime
  {
    assert BoatOk(s.boats[b]) && ServesRight(s, b);
  }

  lemma ArrivedBoat(s: State, v: nat, b: nat)
    requires BoatsOk(s) && EndOk(s) && v < |s.visitors| && s.visitors[v].at == Found(b) && b < |s.boats|
    requires s.boats[b].at == Opened || s.boats[b].at == AtBarrier
    requires s.boats[b].visitor == v + 1 && !s.boats[b].pier.AVisitor?
    ensures BoatsOk(VisitorArrives(s, v, b)) && EndOk(VisitorArrives(s, v, b))
  {
    assert BoatOk(s.boats[b]);
  }

  lemma VisitorArrivesInv(s: State, v: nat, b: nat)
    requires Inv(s) && v < |s.visitors| && s.visitors[v].at == Found(b)
    ensures b < |s.boats| && Inv(VisitorArrives(s, v, b))
  {
    hide TokensOk, ServiceOk, BoatsOk, EndOk;
    FoundBoat(s, v, b);
    ArrivedBoat(s, v, b);
    var s' := VisitorArrives(s, v, b);
    PairTokens(s, s', b, v);
    OnlyServer(s, b, v);
    ServicePair(s, s', b, v);
  }

  lemma BoatMeetsVisitorInv(s: State, b: nat)
    requires Inv(s) && b < |s.boats| && s.boats[b].at == Opened && s.boats[b].pier != Nobody
    ensures Inv(BoatArrives(s, b))
  {
    hide TokensOk, ServiceOk;
    PierVisitor(s, b);
    var x, v := s.boats[b], s.boats[b].pier.v;
    var s' := s.(boats := s.boats[b := x.(at := Boarded, pier := Nobody)], visitors := s.visitors[v := s.visitors[v].(at := Left)]);
    ArrivesIs(s, b);
    PairTokens(s, s', b, v);
    OnlyServer(s, b, v);
    ServicePair(s, s', b, v);
  }

  lemma ArrivesIs(s: State, b: nat)
    requires b < |s.boats| && s.boats[b].pier.AVisitor? && s.boats[b].pier.v < |s.visitors|
    ensures var x, v := s.boats[b], s.boats[b].pier.v;
      BoatArrives(s, b) ==
        s.(boats := s.boats[b := x.(at := Boarded, pier := Nobody)], visitors := s.visitors[v := s.visitors[v].(at := Left)])
  {
    var x := s.boats[b];
    assert s.boats[b := x.(pier := Nobody)][b := x.(at := Boarded, pier := Nobody)] == s.boats[b := x.(at := Boarded, pier := Nobody)];
  }

  /** The invariant is kept by every move of every thread. */
  lemma MoveInv(s: State, m: Move)
    requires Inv(s) && CanMove(s, m)
    ensures Inv(Next(s, m))
  {
    hide Inv;
    match m
    case BoatMove(b, w) =>
      if s.boats[b].at == Announcing {
        AnnounceInv(s, b, w);
      } else if s.boats[b].at == Opened && s.boats[b].pier != Nobody {
        BoatMeetsVisitorInv(s, b);
      } else {
        BoatAloneInv(s, Next(s, m), b);
      }
    case VisitorMove(v, w) =>
      match s.visitors[v].at {
        case Sightseeing => CallBoatInv(s, v, w);
        case Wanting => AskRideInv(s, v);
        case Looking => ClaimInv(s, v);
        case Found(b) => VisitorArrivesInv(s, v, b);
      }
  }

  lemma StartInv(m: nat, rideTimes: seq<int>)
    requires |rideTimes| > 0
    ensures Inv(Start(m, rideTimes))
  {
    hide TokensOk, Count;
    StartTokens(m, rideTimes);
  }

  lemma StartTokens(m: nat, rideTimes: seq<int>)
    ensures TokensOk(Start(m, rideTimes))
  {
    hide Count;
    var s := Start(m, rideTimes);
    CountBounds(s.boats, IsBlocked);
    CountBounds(s.boats, IsFree);
    CountBounds(s.boats, IsAnnounced);
    CountBounds(s.boats, IsUnderWay);
    CountBounds(s.visitors, IsStopped);
    CountBounds(s.visitors, IsLooking);
    CountBounds(s.visitors, IsUnserved);
    CountBounds(s.visitors, HasLeft);
  }

  // ----- when nobody can move

  predicate BoatRests(s: State, b: nat)
    requires b < |s.boats|
  {
    s.boats[b].at == Blocked || s.boats[b].at == AtBarrier || s.boats[b].at == Gone
  }

  predicate VisitorRests(s: State, v: nat)
    requires v < |s.visitors|
  {
    || s.visitors[v].at == Stopped || s.visitors[v].at == Left || s.visitors[v].at.OnPier?
    || (s.visitors[v].at == Looking && FirstClaimable(s.boats, 0) == |s.boats|)
  }

  predicate Quiet(s: State) {
    && (forall b :: 0 <= b < |s.boats| ==> BoatRests(s, b))
    && (forall v :: 0 <= v < |s.visitors| ==> VisitorRests(s, v))
  }

  lemma BoatMovesUnlessResting(s: State, b: nat)
    requires b < |s.boats|
    ensures BoatRests(s, b) || exists w :: CanMove(s, BoatMove(b, w))
  {
    if s.boats[b].at == Announcing && SomeStopped(s) {
      var w: nat :| w < |s.visitors| && s.visitors[w].at == Stopped;
      assert CanMove(s, BoatMove(b, w));
    } else {
      assert BoatRests(s, b) || CanMove(s, BoatMove(b, 0));
    }
  }

  lemma VisitorMovesUnlessResting(s: State, v: nat)
    requires v < |s.visitors| && VisitorOk(s, v)
    ensures VisitorRests(s, v) || exists w :: CanMove(s, VisitorMove(v, w))
  {
    if s.visitors[v].at == Sightseeing && SomeBlocked(s) {
      var w: nat :| w < |s.boats| && s.boats[w].at == Blocked;
      assert CanMove(s, VisitorMove(v, w));
    } else {
      assert VisitorRests(s, v) || CanMove(s, VisitorMove(v, 0));
    }
  }

  /** Nobody can move exactly when every thread is at rest. */
  lemma QuietIffNoMove(s: State)
    requires Inv(s)
    ensures Quiet(s) <==> forall m :: !CanMove(s, m)
  {
    if b: nat :| b < |s.boats| && !BoatRests(s, b) {
      BoatMovesUnlessResting(s, b);
    }
    if v: nat :| v < |s.visitors| && !VisitorRests(s, v) {
      assert VisitorOk(s, v);
      VisitorMovesUnlessResting(s, v);
    }
    if Quiet(s) {
      forall m ensures !CanMove(s, m) {
        assert m.BoatMove? && m.b < |s.boats| ==> BoatRests(s, m.b);
        assert m.VisitorMove? && m.v < |s.visitors| ==> VisitorRests(s, m.v);
      }
    }
  }

  lemma NoClaimable(boats: seq<Boat>)
    requires FirstClaimable(boats, 0) == |boats|
    ensures forall b :: 0 <= b < |boats| ==> !Claimable(boats[b])
  {
  }

  lemma PierBoatOpened(s: State, v: nat)
    requires BoatsOk(s) && ServiceOk(s) && v < |s.visitors|
    ensures s.visitors[v].at.OnPier? ==> s.visitors[v].at.boat < |s.boats| && s.boats[s.visitors[v].at.boat].at == Opened
  {
    assert VisitorOk(s, v);
    if s.visitors[v].at.OnPier? { assert BoatOk(s.boats[s.visitors[v].at.boat]); }
  }

  lemma ServedRests(s: State, v: int)
    requires Quiet(s)
    ensures 0 <= v < |s.visitors| ==> VisitorRests(s, v)
  {
  }

  /** At rest, boats at their barrier have no visitor, so no visitor is on a pier either. */
  lemma QuietBoats(s: State)
    requires BoatsOk(s) && ServiceOk(s) && Quiet(s)
    ensures forall b :: 0 <= b < |s.boats| && s.boats[b].at == AtBarrier ==> IsFree(s.boats[b]) && Claimable(s.boats[b])
    ensures forall v :: 0 <= v < |s.visitors| ==> !s.visitors[v].at.OnPier?
  {
    forall b | 0 <= b < |s.boats| && s.boats[b].at == AtBarrier ensures IsFree(s.boats[b]) && Claimable(s.boats[b]) {
      assert BoatOk(s.boats[b]) && ServesRight(s, b);
      ServedRests(s, Serving(s.boats[b]) - 1);
    }
    forall v | 0 <= v < |s.visitors| ensures !s.visitors[v].at.OnPier? {
      PierBoatOpened(s, v);
      assert s.visitors[v].at.OnPier? ==> BoatRests(s, s.visitors[v].at.boat);
    }
  }

  /** The counting at the heart of it: at rest with a boat in the game, every visitor has left and ridden. */
  lemma QuietMeansDone(s: State)
    requires Inv(s) && Quiet(s) && |s.boats| > 0
    ensures s.completed == |s.visitors|
  {
    QuietBoats(s);
    CompletedBound(s);
    hide ServiceOk, BoatsOk, Count;
    assert Count(s.boats, IsUnderWay) == 0 by {
      CountBounds(s.boats, IsUnderWay);
      forall b | 0 <= b < |s.boats| ensures !IsUnderWay(s.boats[b]) { assert BoatRests(s, b); }
    }
    if b: nat :| b < |s.boats| && s.boats[b].at == Gone {
    } else {
      NoBoatGone(s);
    }
  }

  lemma NoBoatGone(s: State)
    requires TokensOk(s) && Quiet(s) && |s.boats| > 0
    requires forall b :: 0 <= b < |s.boats| ==> s.boats[b].at != Gone
    requires forall b :: 0 <= b < |s.boats| && s.boats[b].at == AtBarrier ==> IsFree(s.boats[b]) && Claimable(s.boats[b])
    requires forall v :: 0 <= v < |s.visitors| ==> !s.visitors[v].at.OnPier?
    requires Count(s.boats, IsUnderWay) == 0
    ensures s.completed == |s.visitors|
  {
    hide Count;
    NoOneLooksForNothing(s);
    forall b | 0 <= b < |s.boats| ensures IsAnnounced(s.boats[b]) && (!IsFree(s.boats[b]) ==> IsBlocked(s.boats[b])) {
      assert BoatRests(s, b);
    }
    // Were somebody looking, no boat would be free and all would be blocked; but blocked boats leave nobody unserved.
    CountBounds(s.boats, IsFree);
    CountBounds(s.boats, IsBlocked);
    CountBounds(s.visitors, IsUnserved);
    CountBounds(s.visitors, IsLooking);
    assert Count(s.visitors, IsLooking) == 0;
    // So the announcements are tokens not taken, and nobody is stopped.
    CountBounds(s.boats, IsAnnounced);
    assert s.riderSem > 0;
    CountBounds(s.visitors, IsStopped);
    CountBounds(s.visitors, HasLeft);
    forall v | 0 <= v < |s.visitors| ensures HasLeft(s.visitors[v]) {
      assert VisitorRests(s, v);
      assert !IsStopped(s.visitors[v]) && !IsLooking(s.visitors[v]);
    }
  }

  /** Somebody looking and somebody free never coexist at rest. */
  lemma NoOneLooksForNothing(s: State)
    requires Quiet(s)
    requires forall b :: 0 <= b < |s.boats| && s.boats[b].at == AtBarrier ==> Claimable(s.boats[b])
    ensures Count(s.boats, IsFree) == 0 || Count(s.visitors, IsLooking) == 0
  {
    CountBounds(s.boats, IsFree);
    CountBounds(s.visitors, IsLooking);
    if v: nat :| v < |s.visitors| && IsLooking(s.visitors[v]) {
      assert VisitorRests(s, v);
      NoClaimable(s.boats);
      forall b | 0 <= b < |s.boats| ensures !IsFree(s.boats[b]) { assert BoatRests(s, b) && !Claimable(s.boats[b]); }
    }
  }

  // ----- every run is finite

  function Sum<T>(s: seq<T>, rank: T -> nat): nat {
    if s == [] then 0 else rank(s[0]) + Sum(s[1..], rank)
  }

  lemma {:induction false} SumUpdate<T>(s: seq<T>, i: nat, x: T, rank: T -> nat)
    requires i < |s|
    ensures Sum(s[i := x], rank) == Sum(s, rank) - rank(s[i]) + rank(x)
  {
    if i == 0 {
      assert s[0 := x][1..] == s[1..];
    } else {
      assert s[i := x][1..] == s[1..][i - 1 := x];
      SumUpdate(s[1..], i - 1, x, rank);
    }
  }

  lemma {:induction false} SumUniform<T>(s: seq<T>, rank: T -> nat, c: nat)
    requires forall i :: 0 <= i < |s| ==> rank(s[i]) == c
    ensures Sum(s, rank) == c * |s|
  {
    if s != [] { SumUniform(s[1..], rank, c); }
  }

  /** How many steps a boat can still take before it waits, unclaimed, at its barrier. */
  function BoatRank(x: Boat): nat {
    match x.at
    case Announcing => 5
    case Asking => 4
    case Blocked => 3
    case Opening => 2
    case Opened => if x.visitor == -1 then 1 else 10
    case AtBarrier => if x.visitor == -1 then 0 else 9
    case Boarded => 8
    case Carrying(_, _) => 7
    case Checking => 6
    case Gone => 0
  }

  /** A visitor's remaining steps, with the ten it lends to the boat it claims. */
  function VisitorRank(y: Visitor): nat {
    match y.at
    case Sightseeing => 15
    case Wanting => 14
    case Stopped => 13
    case Looking => 12
    case Found(_) => 2
    case OnPier(_) => 1
    case Left => 0
  }

  function StepsLeft(s: State): nat { Sum(s.boats, BoatRank) + Sum(s.visitors, VisitorRank) }

  lemma PairSteps(s: State, s': State, b: nat, v: nat)
    requires b < |s.boats| == |s'.boats| && v < |s.visitors| == |s'.visitors|
    requires s'.boats == s.boats[b := s'.boats[b]] && s'.visitors == s.visitors[v := s'.visitors[v]]
    ensures StepsLeft(s') == StepsLeft(s) - BoatRank(s.boats[b]) + BoatRank(s'.boats[b])
      - VisitorRank(s.visitors[v]) + VisitorRank(s'.visitors[v])
  {
    SumUpdate(s.boats, b, s'.boats[b], BoatRank);
    SumUpdate(s.visitors, v, s'.visitors[v], VisitorRank);
  }

  lemma BoatSteps(s: State, s': State, b: nat)
    requires b < |s.boats| == |s'.boats| && s'.boats == s.boats[b := s'.boats[b]] && s'.visitors == s.visitors
    ensures StepsLeft(s') == StepsLeft(s) - BoatRank(s.boats[b]) + BoatRank(s'.boats[b])
  {
    SumUpdate(s.boats, b, s'.boats[b], BoatRank);
  }

  lemma VisitorSteps(s: State, s': State, v: nat)
    requires v < |s.visitors| == |s'.visitors| && s'.visitors == s.visitors[v := s'.visitors[v]] && s'.boats == s.boats
    ensures StepsLeft(s') == StepsLeft(s) - VisitorRank(s.visitors[v]) + VisitorRank(s'.visitors[v])
  {
    SumUpdate(s.visitors, v, s'.visitors[v], VisitorRank);
  }

  lemma BoatMoveSteps(s: State, b: nat, w: nat)
    requires Inv(s) && CanMove(s, BoatMove(b, w))
    ensures StepsLeft(Next(s, BoatMove(b, w))) < StepsLeft(s)
  {
    hide StepsLeft, TokensOk, ServiceOk;
    var s' := Next(s, BoatMove(b, w));
    if s.boats[b].at == Announcing && s.riderSem + 1 <= 0 && SomeStopped(s) {
      PairSteps(s, s', b, w);
    } else if s.boats[b].at == Opened && s.boats[b].pier != Nobody {
      PierVisitor(s, b);
      var x' := s.boats[b].(at := Boarded, pier := Nobody);
      assert s'.boats == s.boats[b := x'];
      PairSteps(s, s', b, s.boats[b].pier.v);
    } else {
      BoatSteps(s, s', b);
    }
  }

  lemma VisitorMoveSteps(s: State, v: nat, w: nat)
    requires Inv(s) && CanMove(s, VisitorMove(v, w))
    ensures StepsLeft(Next(s, VisitorMove(v, w))) < StepsLeft(s)
  {
    hide StepsLeft, TokensOk, ServiceOk;
    var s' := Next(s, VisitorMove(v, w));
    match s.visitors[v].at {
      case Sightseeing =>
        if s.boatSem + 1 <= 0 && SomeBlocked(s) { PairSteps(s, s', w, v); } else { VisitorSteps(s, s', v); }
      case Wanting =>
        VisitorSteps(s, s', v);
      case Looking =>
        var b := FirstClaimable(s.boats, 0);
        assert BoatOk(s.boats[b]);
        PairSteps(s, s', b, v);
      case Found(b) =>
        FoundBoat(s, v, b);
        PairSteps(s, s', b, v);
    }
  }

  ghost predicate Follows(s: State, s': State) {
    exists m :: CanMove(s, m) && s' == Next(s, m)
  }

  /** A run of `m` boats and one visitor for each riding time. */
  ghost predicate IsRun(m: nat, rideTimes: seq<int>, run: seq<State>) {
    && |run| > 0 && run[0] == Start(m, rideTimes)
    && forall i :: 0 <= i < |run| - 1 ==> Follows(run[i], run[i + 1])
  }

  lemma MoveKeepsPeople(s: State, m: Move)
    requires CanMove(s, m) && Inv(s)
    ensures var s' := Next(s, m);
      && |s'.boats| == |s.boats| && |s'.visitors| == |s.visitors|
      && forall v :: 0 <= v < |s.visitors| ==> s'.visitors[v].rideTime == s.visitors[v].rideTime
  {
    hide TokensOk, ServiceOk, EndOk;
  }

  predicate EndsRide(s: State, m: Move) { m.BoatMove? && m.b < |s.boats| && s.boats[m.b].at.Carrying? }

  lemma NoRideElsewhere(s: State, m: Move)
    requires CanMove(s, m) && !EndsRide(s, m)
    ensures var s' := Next(s, m); s'.completed == s.completed && s'.rides == s.rides && s'.lastBoat == s.lastBoat
  {
  }

  /** A ride is completed only by the step of the boat that carries the visitor, and is recorded for that visitor; the
      boat that completes the last one becomes the last boat. */
  lemma RideEnds(s: State, m: Move)
    requires CanMove(s, m) && Inv(s)
    ensures var s' := Next(s, m);
      if EndsRide(s, m) then
        && s'.completed == s.completed + 1
        && s'.rides == s.rides + [(Serving(s.boats[m.b]), RidingTime(s.boats[m.b]))]
        && s'.lastBoat == if s'.completed == |s.visitors| then m.b + 1 else -1
      else s'.completed == s.completed && s'.rides == s.rides && s'.lastBoat == s.lastBoat
  {
    hide TokensOk, ServiceOk, BoatsOk;
    if EndsRide(s, m) {
      MoveInv(s, m);
    } else {
      NoRideElsewhere(s, m);
    }
  }

  /** A boat stops for good exactly when it looks at the count after a ride and finds all rides completed. */
  lemma StopsIffAllDone(s: State, m: Move, b: nat)
    requires CanMove(s, m) && b < |s.boats|
    ensures |Next(s, m).boats| == |s.boats|
    ensures s.boats[b].at != Gone && Next(s, m).boats[b].at == Gone
      <==> m.BoatMove? && m.b == b && s.boats[b].at == Checking && s.completed == |s.visitors|
  {
  }

  lemma FollowsInv(s: State, s': State)
    requires Inv(s) && Follows(s, s')
    ensures Inv(s') && StepsLeft(s') < StepsLeft(s)
    ensures |s'.boats| == |s.boats| && |s'.visitors| == |s.visitors|
    ensures forall v :: 0 <= v < |s.visitors| ==> s'.visitors[v].rideTime == s.visitors[v].rideTime
  {
    hide Inv, StepsLeft, CanMove, TokensOk, BoatsOk, ServiceOk, EndOk;
    var m :| CanMove(s, m) && s' == Next(s, m);
    MoveInv(s, m);
    MoveKeepsPeople(s, m);
    match m
    case BoatMove(b, w) => BoatMoveSteps(s, b, w);
    case VisitorMove(v, w) => VisitorMoveSteps(s, v, w);
  }

  lemma {:induction false} RunInv(m: nat, rideTimes: seq<int>, run: seq<State>)
    requires IsRun(m, rideTimes, run) && |rideTimes| > 0
    ensures var s := run[|run| - 1];
      && Inv(s) && |run| - 1 + StepsLeft(s) <= 5 * m + 15 * |rideTimes|
      && |s.boats| == m && |s.visitors| == |rideTimes|
      && forall v :: 0 <= v < |rideTimes| ==> s.visitors[v].rideTime == rideTimes[v]
    decreases |run|
  {
    hide Inv, StepsLeft, Follows;
    var s := run[|run| - 1];
    if |run| == 1 {
      StartInv(m, rideTimes);
      StartSteps(m, rideTimes);
    } else {
      RunInv(m, rideTimes, run[..|run| - 1]);
      var before := |run| - 2;
      assert Follows(run[before], run[before + 1]);
      FollowsInv(run[before], s);
    }
  }

  lemma StartSteps(m: nat, rideTimes: seq<int>)
    ensures StepsLeft(Start(m, rideTimes)) == 5 * m + 15 * |rideTimes|
  {
    SumUniform(Start(m, rideTimes).boats, BoatRank, 5);
    SumUniform(Start(m, rideTimes).visitors, VisitorRank, 15);
  }

  /** At every moment, the boat a visitor has found is his alone and will carry him for his own time. */
  lemma RunNeverShares(m: nat, rideTimes: seq<int>, run: seq<State>, b: nat, c: nat)
    requires IsRun(m, rideTimes, run) && |rideTimes| > 0 && b < m && c < m
    ensures var s := run[|run| - 1];
      && |s.boats| == m && |s.visitors| == |rideTimes|
      && (Serving(s.boats[b]) != 0 && Serving(s.boats[b]) == Serving(s.boats[c]) ==> b == c)
      && (Serving(s.boats[b]) != 0 ==>
            1 <= Serving(s.boats[b]) <= |rideTimes| && RidingTime(s.boats[b]) == rideTimes[Serving(s.boats[b]) - 1])
      && (s.boats[b].at == Boarded ==> s.boats[b].visitor != -1)
  {
    RunInv(m, rideTimes, run);
    var s := run[|run| - 1];
    assert ServesRight(s, b) && BoatOk(s.boats[b]);
  }

  /** No run has more than 5m + 15n moves.  When no thread can move, all n rides are over: each visitor has
      had exactly one, for his own time, and the boat that gave the last one is known. */
  lemma RunEndsWell(m: nat, rideTimes: seq<int>, run: seq<State>)
    requires IsRun(m, rideTimes, run) && |rideTimes| > 0
    ensures |run| - 1 <= 5 * m + 15 * |rideTimes|
    ensures var s := run[|run| - 1];
      m > 0 && (forall x :: !CanMove(s, x)) ==>
        && s.completed == |rideTimes| == |s.rides|
        && (forall v :: 0 <= v < |rideTimes| ==> (v + 1, rideTimes[v]) in s.rides)
        && (forall i, j :: 0 <= i < j < |s.rides| ==> s.rides[i].0 != s.rides[j].0)
        && 1 <= s.lastBoat <= m == |s.boats| && s.boats[s.lastBoat - 1].at == Gone
  {
    RunInv(m, rideTimes, run);
    var s := run[|run| - 1];
    if m > 0 && forall x :: !CanMove(s, x) {
      QuietIffNoMove(s);
      QuietMeansDone(s);
      AllHaveRidden(s);
      assert BoatRests(s, s.lastBoat - 1);
      forall v | 0 <= v < |rideTimes| ensures (v + 1, rideTimes[v]) in s.rides {
        assert (v + 1, s.visitors[v].rideTime) in s.rides;
      }
    }
  }

  lemma AllHaveRidden(s: State)
    requires RidesOk(s) && s.completed == |s.visitors|
    ensures forall v :: 0 <= v < |s.visitors| ==> (v + 1, s.visitors[v].rideTime) in s.rides
  {
    forall i | 0 <= i < |s.rides| ensures 1 <= s.rides[i].0 <= |s.visitors| { assert RideOk(s, s.rides[i]); }
    var who: seq<nat> := seq(|s.rides|, i requires 0 <= i < |s.rides| => s.rides[i].0 - 1);
    DistinctBound(who, |s.visitors|);
    forall v | 0 <= v < |s.visitors| ensures (v + 1, s.visitors[v].rideTime) in s.rides {
      assert v in who;
      var i :| 0 <= i < |who| && who[i] == v;
      assert RideOk(s, s.rides[i]);
    }
  }
}
