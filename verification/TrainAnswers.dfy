/** What train requests are answered and what they leave behind, told without the functions that compute it. */
module TrainAnswers {
  import opened Collections
  import opened SeatLocks
  import opened TrainInventory
  import opened TrainBooking
  import opened TrainSafety
  import Refunds

  // ---- Routes ----------------------------------------------------------------------------------------

  /** The station's last stop on the line is number i. */
  predicate LastAt(stops: seq<Stop>, station: string, i: int) {
    0 <= i < |stops| && stops[i].station == station && forall k :: i < k < |stops| ==> stops[k].station != station
  }

  ghost predicate RunsForward(stops: seq<Stop>, from: string, to: string) {
    exists i, j :: LastAt(stops, from, i) && LastAt(stops, to, j) && stops[i].sequence < stops[j].sequence
  }

  lemma {:induction false} LastStopFound(stops: seq<Stop>, station: string) returns (i: int)
    ensures if LastStop(stops, station).None? then forall k :: 0 <= k < |stops| ==> stops[k].station != station
            else LastAt(stops, station, i) && LastStop(stops, station) == Some(stops[i])
    decreases |stops|
  {
    i := |stops| - 1;
    if stops != [] && stops[i].station != station {
      var init := stops[..i];
      i := LastStopFound(init, station);
      assert forall k :: 0 <= k < |init| ==> stops[k] == init[k];
    }
  }

  /** The route check passes exactly when the stations' last stops on the line come in travelling order. */
  lemma RouteOkIff(sch: Schedule, from: string, to: string)
    ensures RouteOk(sch, from, to) <==> RunsForward(sch.stops, from, to)
  {
    var i := LastStopFound(sch.stops, from);
    var j := LastStopFound(sch.stops, to);
    forall k, l | LastAt(sch.stops, from, k) && LastAt(sch.stops, to, l)
      ensures k == i && l == j && LastStop(sch.stops, from).Some? && LastStop(sch.stops, to).Some?
    {
      assert sch.stops[k].station == from && sch.stops[l].station == to;
    }
  }

  /** On a line that calls nowhere twice, with rising numbers, one may travel exactly from earlier to later stops. */
  lemma ForwardOnly(sch: Schedule, i: nat, j: nat)
    requires i < |sch.stops| && j < |sch.stops|
    requires forall k, l :: 0 <= k < l < |sch.stops| ==>
               sch.stops[k].station != sch.stops[l].station && sch.stops[k].sequence < sch.stops[l].sequence
    ensures RouteOk(sch, sch.stops[i].station, sch.stops[j].station) <==> i < j
  {
    var from, to := sch.stops[i].station, sch.stops[j].station;
    assert LastAt(sch.stops, from, i) && LastAt(sch.stops, to, j);
    RouteOkIff(sch, from, to);
  }

  // ---- Requests --------------------------------------------------------------------------------------

  /** The berth can be sold to this class. */
  predicate Sellable(s: State, k: nat, travelClass: string) {
    k < |s.berths| && s.berths[k].status == Available && s.berths[k].travelClass == travelClass
  }

  ghost predicate RouteFits(s: State, req: Request) {
    req.schedule in s.schedules && RunsForward(s.schedules[req.schedule].stops, req.from, req.to)
  }

  predicate Listed(s: State, req: Request) {
    NoDup(req.seats) && forall k :: k in req.seats ==> k < |s.berths|
  }

  predicate Unclaimed(s: State, now: int, env: Env, req: Request) {
    && (forall k :: k in req.seats ==> !Live(s.locks, Key(req.schedule, k), now))
    && (env.faultAt.Some? ==> |req.seats| <= env.faultAt.value)
  }

  predicate Writable(env: Env, req: Request) {
    && req.travelClass in {"SL", "3AC", "2AC", "1AC"} && req.seats != []
    && req.validBirthDates != [] && false !in req.validBirthDates && env.saved
  }

  /** Exactly the requests that become bookings. */
  lemma AcceptedIff(s: State, now: int, env: Env, req: Request)
    ensures CreateOutcome(s, now, env, req).None? <==>
            && RouteFits(s, req) && Listed(s, req) && (forall k :: k in req.seats ==> Sellable(s, k, req.travelClass))
            && Unclaimed(s, now, env, req) && Writable(env, req)
  {
    if req.schedule in s.schedules {
      RouteOkIff(s.schedules[req.schedule], req.from, req.to);
    }
    FoundAll(s.berths, req.seats);
    assert forall i :: 0 <= i < |req.seats| ==> req.seats[i] in req.seats;
    if Listed(s, req) {
      NoSeatError(s.berths, req.seats, req.travelClass);
    }
  }

  /** The first berth that cannot be sold decides between the two answers about berths. */
  lemma {:induction false} SeatErrorTold(berths: seq<Berth>, ids: seq<nat>, travelClass: string) returns (i: nat)
    requires Known(ids, |berths|) && SeatError(berths, ids, travelClass).Some?
    ensures i < |ids| && SeatError(berths, ids, travelClass)
                         == Some(if berths[ids[i]].status != Available then SeatBooked else WrongClass)
    ensures berths[ids[i]].status != Available || berths[ids[i]].travelClass != travelClass
    ensures forall j :: 0 <= j < i ==>
              berths[ids[j]].status == Available && berths[ids[j]].travelClass == travelClass
    decreases |ids|
  {
    var init, n := ids[..|ids| - 1], |ids| - 1;
    if SeatError(berths, init, travelClass).Some? {
      i := SeatErrorTold(berths, init, travelClass);
    } else {
      i := n;
      NoSeatError(berths, init, travelClass);
      assert forall j :: 0 <= j < n ==> ids[j] == init[j] && init[j] in init;
    }
  }

  /** Which answer a refused request gets. */
  lemma RefusedBecause(s: State, now: int, env: Env, req: Request)
    ensures var out := CreateOutcome(s, now, env, req);
            && (out == Some(ScheduleNotFound) <==> req.schedule !in s.schedules)
            && (out == Some(BadRoute) <==> req.schedule in s.schedules && !RouteFits(s, req))
            && (out == Some(NoSeats) <==> RouteFits(s, req) && !Listed(s, req))
            && (out in {Some(SeatBooked), Some(WrongClass)} <==>
                  RouteFits(s, req) && Listed(s, req) && exists k :: k in req.seats && !Sellable(s, k, req.travelClass))
            && (out == Some(SeatBooked) ==>
                  exists k: nat :: k in req.seats && k < |s.berths| && s.berths[k].status != Available)
            && (out == Some(WrongClass) ==>
                  exists k: nat :: k in req.seats && k < |s.berths| && s.berths[k].travelClass != req.travelClass)
            && (out == Some(SeatLocked) ==> !Unclaimed(s, now, env, req))
            && (out == Some(TransactionFailed) ==> Unclaimed(s, now, env, req) && !Writable(env, req))
            && (out.Some? ==> out.value in {ScheduleNotFound, BadRoute, NoSeats, SeatBooked, WrongClass, SeatLocked,
                                            TransactionFailed})
  {
    if req.schedule in s.schedules {
      RouteOkIff(s.schedules[req.schedule], req.from, req.to);
    }
    FoundAll(s.berths, req.seats);
    assert forall i :: 0 <= i < |req.seats| ==> req.seats[i] in req.seats;
    if Listed(s, req) {
      NoSeatError(s.berths, req.seats, req.travelClass);
      if SeatError(s.berths, req.seats, req.travelClass).Some? {
        var i := SeatErrorTold(s.berths, req.seats, req.travelClass);
        assert req.seats[i] in req.seats;
      }
    }
  }

  // ---- What an accepted request writes ---------------------------------------------------------------

  /** The fare is the sum of the berths' prices. */
  lemma {:induction false} FareAdds(berths: seq<Berth>, a: seq<nat>, b: seq<nat>)
    requires Known(a, |berths|) && Known(b, |berths|)
    ensures Fare(berths, a + b) == Fare(berths, a) + Fare(berths, b)
    ensures |a| == 1 ==> Fare(berths, a) == berths[a[0]].price
    decreases |b|
  {
    if b == [] {
      assert a + b == a;
    } else {
      assert (a + b)[..|a + b| - 1] == a + b[..|b| - 1];
      FareAdds(berths, a, b[..|b| - 1]);
    }
  }

  /** The total is the fare and 2% of it, exact to half a paisa. */
  lemma TotalTold(berths: seq<Berth>, ids: seq<nat>)
    requires Known(ids, |berths|)
    ensures var fare := Fare(berths, ids); -50 <= 100 * (Total(berths, ids) - fare) - 2 * fare <= 50
  {
  }

  const MINUTE: int := 60_000

  /** An accepted request appends one PENDING_PAYMENT row, payable for a quarter of an hour from when it is
      stamped. */
  lemma CreatedRow(s: State, now: int, env: Env, user: nat, req: Request) returns (b: Booking)
    requires CreateOutcome(s, now, env, req).None?
    ensures var s' := Create(s, now, env, user, req);
            && s'.bookings == s.bookings + [b] && s'.refunds == s.refunds && s'.schedules == s.schedules
            && b.user == user && b.schedule == req.schedule && b.travelClass == req.travelClass && b.seats == req.seats
            && b.status == Pending && b.expiresAt == now + env.lag + 15 * MINUTE
            && Known(req.seats, |s.berths|) && b.total == Total(s.berths, req.seats)
  {
    AcceptedRequest(s, now, env, req);
    CreatedTables(s, now, env, user, req);
    b := NewBooking(s.berths, now, env.lag, user, req);
  }

  /** It locks its berths, and no others, for ten minutes. */
  lemma CreatedLocks(s: State, now: int, env: Env, user: nat, req: Request, k: Key, at: int)
    requires CreateOutcome(s, now, env, req).None? && now <= at
    ensures Live(Create(s, now, env, user, req).locks, k, at) <==>
              if k in KeysOf(req.schedule, req.seats) then at <= now + 10 * MINUTE else Live(s.locks, k, at)
  {
    AcceptedRequest(s, now, env, req);
    ClaimedLive(s.locks, req.schedule, req.seats, user, now + LOCK_TTL, now, k, at);
  }

  /** A refused request changes nothing but dead locks. */
  lemma RefusedWritesNothing(s: State, now: int, env: Env, user: nat, req: Request)
    requires CreateOutcome(s, now, env, req).Some?
    ensures var s' := Create(s, now, env, user, req);
            s' == s.(locks := s'.locks) && forall k, at :: now <= at ==>
              (Live(s'.locks, k, at) <==> Live(s.locks, k, at))
  {
  }

  // ---- Statuses --------------------------------------------------------------------------------------

  /** The event moves booking id to this status. */
  predicate Moves(s: State, e: Event, id: nat, status: Status)
    requires id < |s.bookings|
  {
    var b := s.bookings[id];
    match status
    case Pending => false
    case Confirmed => e == Completing(id) && b.status == Pending
    case Failed => e == Failing(id)
    case Cancelled => e.Cancelling? && e.id == id && CancelOutcome(s, e.now, id, e.user, e.policies).None?
    case Expired => e == ExpiringListed(id) || (e.Expiring? && b.status == Pending && b.expiresAt < e.now)
  }

  /** The row is as it was but for the status, and that is what the event moves it to, if anything. */
  ghost predicate MovedBy(s: State, e: Event, id: nat, b': Booking)
    requires id < |s.bookings|
  {
    && b' == s.bookings[id].(status := b'.status)
    && (forall status :: Moves(s, e, id, status) ==> b'.status == status)
    && ((forall status :: !Moves(s, e, id, status)) ==> b'.status == s.bookings[id].status)
  }

  /** Only one status can be the one an event moves to. */
  lemma MoveIs(s: State, e: Event, id: nat, b': Booking, status: Status)
    requires id < |s.bookings| && Moves(s, e, id, status) && b' == s.bookings[id].(status := status)
    ensures MovedBy(s, e, id, b')
  {
  }

  lemma CreateMoves(s: State, now: int, env: Env, user: nat, req: Request, id: nat)
    requires id < |s.bookings|
    ensures var s' := Create(s, now, env, user, req); id < |s'.bookings| && s'.bookings[id] == s.bookings[id]
  {
  }

  lemma CancelMoves(s: State, now: int, other: nat, user: nat, policies: seq<Refunds.Policy>, id: nat)
    requires id < |s.bookings|
    ensures var s', e := Cancel(s, now, other, user, policies), Cancelling(now, other, user, policies);
            && |s'.bookings| == |s.bookings|
            && s'.bookings[id]
               == if Moves(s, e, id, Cancelled) then s.bookings[id].(status := Cancelled) else s.bookings[id]
  {
  }

  lemma PassMoves(s: State, now: int, id: nat)
    requires id < |s.bookings|
    ensures var s' := ExpiryPass(s, now);
            && |s'.bookings| == |s.bookings|
            && s'.bookings[id] == if Moves(s, Expiring(now), id, Expired) then s.bookings[id].(status := Expired)
                                  else s.bookings[id]
  {
    OverdueExactly(s.bookings, now, |s.bookings|);
    ExpireAllBookings(s, Overdue(s.bookings, now, |s.bookings|));
  }

  /** Exactly which events change a booking's status, and to what; nothing else of a booking ever changes. */
  lemma StatusMoves(s: State, e: Event, id: nat)
    requires id < |s.bookings|
    ensures id < |Step(s, e).bookings| && MovedBy(s, e, id, Step(s, e).bookings[id])
  {
    var b := s.bookings[id];
    match e
    case Generating(_, _) =>
    case Creating(now, env, user, req) => CreateMoves(s, now, env, user, req, id);
    case Completing(other) =>
      if Moves(s, e, id, Confirmed) {
        MoveIs(s, e, id, b.(status := Confirmed), Confirmed);
      }
    case Failing(other) =>
      if other == id {
        MoveIs(s, e, id, b.(status := Failed), Failed);
      }
    case Cancelling(now, other, user, policies) =>
      CancelMoves(s, now, other, user, policies, id);
      if Moves(s, e, id, Cancelled) {
        MoveIs(s, e, id, b.(status := Cancelled), Cancelled);
      }
    case Expiring(now) =>
      PassMoves(s, now, id);
      if Moves(s, e, id, Expired) {
        MoveIs(s, e, id, b.(status := Expired), Expired);
      }
    case ExpiringListed(other) =>
      if other == id {
        MoveIs(s, e, id, b.(status := Expired), Expired);
      }
  }

  /** A new booking is expired by exactly the passes that run after its quarter of an hour. */
  lemma ExpiresAfterWindow(s: State, now: int, env: Env, user: nat, req: Request, later: int)
    requires CreateOutcome(s, now, env, req).None?
    ensures var n, s' := |s.bookings|, Create(s, now, env, user, req);
            && n < |s'.bookings| == |ExpiryPass(s', later).bookings|
            && ExpiryPass(s', later).bookings[n].status
               == if later > now + env.lag + 15 * MINUTE then Expired else Pending
  {
    var s' := Create(s, now, env, user, req);
    var b := CreatedRow(s, now, env, user, req);
    OverdueExactly(s'.bookings, later, |s'.bookings|);
    ExpireAllBookings(s', Overdue(s'.bookings, later, |s'.bookings|));
  }

  /** Whatever settles a booking unlocks its berths and no others. */
  lemma SettlingUnlocks(s: State, e: Event, id: nat)
    requires id < |s.bookings|
    requires e in {Completing(id), Failing(id), ExpiringListed(id)} || (e.Cancelling? && e.id == id)
    ensures var b := s.bookings[id];
            var settles := exists status :: Moves(s, e, id, status);
            Step(s, e).locks == if settles then s.locks - KeysOf(b.schedule, b.seats) else s.locks
  {
    match e
    case Completing(_) => assert Moves(s, e, id, Confirmed) <==> s.bookings[id].status == Pending;
    case Failing(_) => assert Moves(s, e, id, Failed);
    case ExpiringListed(_) => assert Moves(s, e, id, Expired);
    case Cancelling(now, _, user, policies) =>
      assert Moves(s, e, id, Cancelled) <==> CancelOutcome(s, now, id, user, policies).None?;
  }

  // ---- Cancellations ---------------------------------------------------------------------------------

  /** The schedule is known, and an active row covers the hours left. */
  ghost predicate Refundable(s: State, now: int, b: Booking, policies: seq<Refunds.Policy>) {
    && b.schedule in s.schedules
    && exists p :: p in policies && p.active
                   && p.threshold <= Refunds.TruncHours(s.schedules[b.schedule].departureAt - now)
  }

  /** Which cancellations are accepted, and what the others are answered. */
  lemma CancelAnswer(s: State, now: int, id: nat, user: nat, policies: seq<Refunds.Policy>)
    ensures var out := CancelOutcome(s, now, id, user, policies);
            if id >= |s.bookings| then out == Some(BookingNotFound)
            else
              var b := s.bookings[id];
              && (out == Some(Unauthorized) <==> user != b.user)
              && (out == Some(CannotCancel) <==> user == b.user && b.status in {Cancelled, Failed, Expired})
              && (out.None? <==>
                    user == b.user && b.status in {Pending, Confirmed} && Refundable(s, now, b, policies))
              && (out == Some(RefundNotEligible) <==>
                    user == b.user && b.status in {Pending, Confirmed} && b.schedule in s.schedules
                    && !Refundable(s, now, b, policies))
              && (out.Some? ==> out.value in {Unauthorized, CannotCancel, RefundNotEligible, BookingNotFound})
  {
    if id < |s.bookings| && s.bookings[id].schedule in s.schedules {
      Refunds.PolicyFound(policies, Refunds.TruncHours(s.schedules[s.bookings[id].schedule].departureAt - now));
    }
  }

  /** The recorded refund is the applying row's share of the total, to half a paisa. */
  lemma RefundRecorded(s: State, now: int, id: nat, user: nat, policies: seq<Refunds.Policy>)
    requires CancelOutcome(s, now, id, user, policies).None?
    ensures var b, s' := s.bookings[id], Cancel(s, now, id, user, policies);
            var hours := Refunds.TruncHours(s.schedules[b.schedule].departureAt - now);
            && id in s'.refunds
            && exists p :: Refunds.Applies(policies, hours, p) && Refunds.IsShare(s'.refunds[id], b.total, p.percent)
  {
    var b := s.bookings[id];
    var p := PolicyFor(s, now, b, policies).value;
    Refunds.PolicyFound(policies, Refunds.TruncHours(s.schedules[b.schedule].departureAt - now));
    Refunds.PercentageIsShare(b.total, p.percent);
    assert Cancel(s, now, id, user, policies).refunds[id] == Refunds.Percentage(b.total, p.percent);
  }
}
