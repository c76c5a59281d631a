/** What flight requests are answered and what they leave behind, told without the functions that compute it. */
module FlightAnswers {
  import opened Collections
  import opened SeatLocks
  import opened FlightBooking
  import FlightExclusivity
  import Refunds

  const MINUTE: int := 60_000

  // ---- Passengers ------------------------------------------------------------------------------------

  /** Passenger i takes seat k: anyone but an infant who names one. */
  predicate Seated(ps: seq<Passenger>, i: int, k: nat) {
    0 <= i < |ps| && ps[i].kind != "infant" && ps[i].seat == Some(k)
  }

  /** The seats wanted are those of the seated passengers. */
  lemma {:induction false} RequestedTold(ps: seq<Passenger>, k: nat)
    ensures k in Requested(ps) <==> exists i :: Seated(ps, i, k)
    decreases |ps|
  {
    if ps != [] {
      var init, n := ps[..|ps| - 1], |ps| - 1;
      RequestedTold(init, k);
      assert forall i :: Seated(ps, i, k) <==> Seated(init, i, k) || (i == n && Seated(ps, n, k));
      assert Seated(ps, n, k) <==> k in Wanted(ps[n]);
    }
  }

  ghost predicate NoneTwice(ps: seq<Passenger>) {
    forall i, j, k: nat :: Seated(ps, i, k) && Seated(ps, j, k) ==> i == j
  }

  /** None is wanted twice exactly when no two seated passengers name the same one. */
  lemma {:induction false} DistinctIff(ps: seq<Passenger>)
    ensures NoDup(Requested(ps)) <==> NoneTwice(ps)
    decreases |ps|
  {
    if ps != [] {
      var init, n := ps[..|ps| - 1], |ps| - 1;
      DistinctIff(init);
      assert forall i, k: nat :: Seated(ps, i, k) <==> Seated(init, i, k) || (i == n && Seated(ps, n, k));
      if Wanted(ps[n]) == [] {
        assert forall k: nat :: !Seated(ps, n, k);
        assert Requested(ps) == Requested(init);
      } else {
        LastDistinct(ps, ps[n].seat.value);
      }
    }
  }

  lemma LastDistinct(ps: seq<Passenger>, k: nat)
    requires ps != [] && Wanted(ps[|ps| - 1]) == [k]
    requires NoDup(Requested(ps[..|ps| - 1])) <==> NoneTwice(ps[..|ps| - 1])
    requires var init, n := ps[..|ps| - 1], |ps| - 1;
             forall i, k: nat :: Seated(ps, i, k) <==> Seated(init, i, k) || (i == n && Seated(ps, n, k))
    ensures NoDup(Requested(ps)) <==> NoneTwice(ps)
  {
    var init, n := ps[..|ps| - 1], |ps| - 1;
    NoDupSnoc(Requested(init), k);
    RequestedTold(init, k);
    assert Seated(ps, n, k);
    if i :| Seated(init, i, k) {
      assert Seated(ps, i, k) && i != n;
    } else {
      assert NoneTwice(ps) <==> NoneTwice(init);
    }
  }

  /** What is stored of the passengers: everything, but no seat for an infant. */
  lemma StoredTold(ps: seq<Passenger>, i: nat)
    requires i < |ps|
    ensures var p, p' := ps[i], StoredAll(ps)[i];
            |StoredAll(ps)| == |ps| && p'.kind == p.kind && p'.seat == if p.kind == "infant" then None else p.seat
  {
  }

  /** Base fare and 18% tax, exact to half a paisa, plus 500 rupees service fee and the ancillaries. */
  lemma TotalTold(price: nat, passengers: nat, ancillaries: nat)
    ensures -50 <= 100 * (Total(price, passengers, ancillaries) - 50_000 - ancillaries) - 118 * (price * passengers)
            <= 50
  {
    assert price * passengers * 118 == 118 * (price * passengers);
  }

  // ---- Requests --------------------------------------------------------------------------------------

  predicate FareFits(s: State, req: Request) {
    && req.instance < |s.instances| && req.fare < |s.fares| && s.fares[req.fare].instance == req.instance
    && |req.passengers| <= 9
  }

  predicate SeatFree(s: State, now: int, k: nat) {
    k < |s.seats| && s.seats[k].available && !Live(s.locks, Key(0, k), now)
  }

  ghost predicate SeatsFit(s: State, now: int, env: Env, ps: seq<Passenger>) {
    && (forall i, k: nat :: Seated(ps, i, k) ==> SeatFree(s, now, k))
    && NoneTwice(ps)
    && Answers(env.faultAt, |Requested(ps)|)
  }

  lemma ScanOkIff(s: State, now: int, env: Env, ps: seq<Passenger>)
    ensures ScanError(s.seats, Purge(s.locks, now), env.faultAt, ps).None? <==> SeatsFit(s, now, env, ps)
  {
    var alive := Purge(s.locks, now);
    ScanSucceedsIff(s.seats, alive, env.faultAt, ps);
    DistinctIff(ps);
    assert forall k: nat :: SeatFree(s, now, k) <==> k < |s.seats| && s.seats[k].available && Key(0, k) !in alive;
    if forall k :: k in Requested(ps) ==> SeatFree(s, now, k) {
      forall i, k: nat | Seated(ps, i, k)
        ensures SeatFree(s, now, k)
      {
        RequestedTold(ps, k);
      }
    } else {
      var k :| k in Requested(ps) && !SeatFree(s, now, k);
      RequestedTold(ps, k);
    }
  }

  /** Exactly the requests that become bookings. */
  lemma AcceptedIff(s: State, now: int, env: Env, req: Request)
    ensures CreateOutcome(s, now, env, req).None? <==>
              FareFits(s, req) && SeatsFit(s, now, env, req.passengers) && env.saved
  {
    ScanOkIff(s, now, env, req.passengers);
  }

  /** The lock loop stops at the first passenger whose seat cannot be had: taken if it is unknown or unavailable,
      otherwise held. */
  lemma {:induction false} ScanErrorTold(seats: seq<Seat>, alive: Table, faultAt: Option<nat>, ps: seq<Passenger>)
    returns (i: nat)
    requires ScanError(seats, alive, faultAt, ps).Some?
    ensures i < |ps| && ps[i].kind != "infant" && ps[i].seat.Some?
    ensures ScanError(seats, alive, faultAt, ps[..i]).None?
    ensures var k, before := ps[i].seat.value, Requested(ps[..i]);
            if k >= |seats| || !seats[k].available then ScanError(seats, alive, faultAt, ps) == Some(SeatTaken)
            else ScanError(seats, alive, faultAt, ps) == Some(SeatHeld)
                 && (Key(0, k) in alive || k in before || faultAt == Some(|before|))
    decreases |ps|
  {
    var n := |ps| - 1;
    if ScanError(seats, alive, faultAt, ps[..n]).Some? {
      i := ScanErrorTold(seats, alive, faultAt, ps[..n]);
      assert ps[..n][..i] == ps[..i];
    } else {
      i := n;
    }
  }

  /** Which answer a refused request gets. */
  lemma RefusedBecause(s: State, now: int, env: Env, req: Request)
    ensures var out := CreateOutcome(s, now, env, req);
            && (out == Some(InvalidInstance) <==> req.instance >= |s.instances|)
            && (out == Some(InvalidFare) <==> req.instance < |s.instances| && req.fare >= |s.fares|)
            && (out == Some(FareOfOtherInstance) <==>
                  req.instance < |s.instances| && req.fare < |s.fares| && s.fares[req.fare].instance != req.instance)
            && (out == Some(TooMany) <==>
                  req.instance < |s.instances| && req.fare < |s.fares| && s.fares[req.fare].instance == req.instance
                  && |req.passengers| > 9)
            && (out in {Some(SeatTaken), Some(SeatHeld)} <==>
                  FareFits(s, req) && !SeatsFit(s, now, env, req.passengers))
            && (out == Some(NotSaved) <==> FareFits(s, req) && SeatsFit(s, now, env, req.passengers) && !env.saved)
  {
    ScanOkIff(s, now, env, req.passengers);
    if ScanError(s.seats, Purge(s.locks, now), env.faultAt, req.passengers).Some? {
      var i := ScanErrorTold(s.seats, Purge(s.locks, now), env.faultAt, req.passengers);
    }
  }

  // ---- What an accepted request writes ---------------------------------------------------------------

  /** An accepted request appends one PENDING_PAYMENT row, payable for ten minutes from when it is stamped; no seat,
      counter or other row changes. */
  lemma CreatedRow(s: State, now: int, env: Env, user: nat, req: Request) returns (b: Booking)
    requires CreateOutcome(s, now, env, req).None?
    ensures var s' := Create(s, now, env, user, req); s' == s.(bookings := s.bookings + [b], locks := s'.locks)
    ensures b.user == user && b.instance == req.instance && b.fare == req.fare && b.seatClass == req.seatClass
    ensures b.passengers == StoredAll(req.passengers) && Requested(b.passengers) == Requested(req.passengers)
    ensures b.status == Pending && b.confirmedAt == None && b.refund == 0
    ensures b.expiresAt == now + env.lag + 10 * MINUTE && b.lockedUntil == now + 10 * MINUTE
    ensures req.fare < |s.fares| && b.total == Total(s.fares[req.fare].price, |req.passengers|, req.ancillaries)
  {
    b := NewBooking(s.fares[req.fare].price, now, env.lag, user, req);
    FlightExclusivity.StoredSeats(req.passengers);
  }

  lemma ClaimTold(s: State, now: int, env: Env, user: nat, req: Request)
    requires CreateOutcome(s, now, env, req).None?
    ensures Create(s, now, env, user, req).locks
         == Claimed(Purge(s.locks, now), 0, Requested(req.passengers), user, now + 10 * MINUTE)
  {
  }

  /** It locks the seats wanted, and no others, for ten minutes. */
  lemma CreatedLocks(s: State, now: int, env: Env, user: nat, req: Request, k: Key, at: int)
    requires CreateOutcome(s, now, env, req).None? && now <= at
    ensures Live(Create(s, now, env, user, req).locks, k, at) <==>
              if k in KeysOf(0, Requested(req.passengers)) then at <= now + 10 * MINUTE else Live(s.locks, k, at)
  {
    ClaimTold(s, now, env, user, req);
    ClaimedLive(s.locks, 0, Requested(req.passengers), user, now + 10 * MINUTE, now, k, at);
  }

  /** A refused request changes nothing but dead locks. */
  lemma RefusedWritesNothing(s: State, now: int, env: Env, user: nat, req: Request)
    requires CreateOutcome(s, now, env, req).Some?
    ensures var s' := Create(s, now, env, user, req);
            s' == s.(locks := s'.locks) && forall k, at :: now <= at ==>
              (Live(s'.locks, k, at) <==> Live(s.locks, k, at))
  {
  }

  /** A new booking is swept by exactly the sweeps that come after its ten minutes. */
  lemma SweptAfterWindow(s: State, now: int, env: Env, user: nat, req: Request, later: int)
    requires CreateOutcome(s, now, env, req).None?
    ensures var n, swept := |s.bookings|, SweepRows(Create(s, now, env, user, req).bookings, later);
            && n < |swept|
            && swept[n].status == if later > now + env.lag + 10 * MINUTE then Expired else Pending
  {
    var b := CreatedRow(s, now, env, user, req);
  }

  // ---- Statuses --------------------------------------------------------------------------------------

  /** The event moves booking id to this status. */
  predicate Moves(s: State, e: Event, id: nat, status: Status)
    requires id < |s.bookings|
  {
    var b := s.bookings[id];
    match status
    case Pending => false
    case Confirmed => e.Confirming? && e.id == id && b.status == Pending
    case Cancelled =>
      e.Cancelling? && e.id == id && e.user == b.user && b.status == Confirmed
      && b.instance < |s.instances| && b.fare < |s.fares|
    case Expired => e.Sweeping? && b.status == Pending && e.now > b.expiresAt
  }

  /** Exactly which events change a booking's status, and to what. */
  lemma StatusMoves(s: State, e: Event, id: nat)
    requires id < |s.bookings|
    ensures var bookings' := Step(s, e).bookings;
            && id < |bookings'|
            && (forall status :: Moves(s, e, id, status) ==> bookings'[id].status == status)
            && ((forall status :: !Moves(s, e, id, status)) ==> bookings'[id] == s.bookings[id])
  {
    match e
    case Creating(_, _, _, _) =>
    case Confirming(_, other) => assert Moves(s, e, id, Confirmed) <==> other == id && s.bookings[id].status == Pending;
    case Cancelling(now, other, user) =>
      assert Moves(s, e, id, Cancelled) <==> other == id && CancelOutcome(s, id, user).None?;
    case Sweeping(now) =>
      assert Moves(s, e, id, Expired) <==> s.bookings[id].status == Pending && now > s.bookings[id].expiresAt;
  }

  /** What payments and cancellations are answered. */
  lemma AnswersTold(s: State, id: nat, user: nat)
    ensures ConfirmOutcome(s, id) == if id >= |s.bookings| then Some(BookingNotFound)
                                     else if s.bookings[id].status == Pending then None else Some(NotPending)
    ensures var out := CancelOutcome(s, id, user);
            var known := id < |s.bookings| && s.bookings[id].instance < |s.instances|
                         && s.bookings[id].fare < |s.fares|;
            && (out == Some(BookingNotFound) <==> !known)
            && (out == Some(Unauthorized) <==> known && s.bookings[id].user != user)
            && (out == Some(NotConfirmed)
                <==> known && s.bookings[id].user == user && s.bookings[id].status != Confirmed)
  {
  }

  // ---- Seats and counters ----------------------------------------------------------------------------

  /** The counters of one class of one instance change by n, all others stay. */
  predicate CountsMoved(before: seq<Instance>, after: seq<Instance>, instance: nat, business: bool, n: int) {
    |after| == |before|
    && forall i :: 0 <= i < |before| ==>
      var was := before[i];
      && after[i].departure == was.departure
      && after[i].business == (if i == instance && business
                         then Counts(was.business.available + n, was.business.quota + n) else was.business)
      && after[i].economy == (if i == instance && !business
                        then Counts(was.economy.available + n, was.economy.quota + n) else was.economy)
  }

  /** An accepted payment shuts the seats, deletes their locks, and takes every passenger, seated or not, off both
      counters: of business for a BUSINESS booking, otherwise of economy. */
  lemma ConfirmWrites(s: State, now: int, id: nat)
    requires ConfirmOutcome(s, id).None?
    ensures var b, s' := s.bookings[id], Confirm(s, now, id);
            && |s'.bookings| == |s.bookings|
            && s'.bookings[id] == b.(status := Confirmed, confirmedAt := Some(now))
            && CountsMoved(s.instances, s'.instances, b.instance, b.seatClass == "BUSINESS", 0 - |b.passengers|)
            && |s'.seats| == |s.seats|
            && (forall k :: 0 <= k < |s.seats| ==>
                  s'.seats[k] == s.seats[k].(available := s.seats[k].available && k !in Requested(b.passengers)))
            && s'.locks == s.locks - KeysOf(0, Requested(b.passengers)) && s'.fares == s.fares
  {
  }

  /** An accepted cancellation opens the seats and gives the passengers back to the same counters. */
  lemma CancelWrites(s: State, now: int, id: nat, user: nat)
    requires CancelOutcome(s, id, user).None?
    ensures var b, s' := s.bookings[id], Cancel(s, now, id, user);
            && |s'.bookings| == |s.bookings|
            && s'.bookings[id] == b.(status := Cancelled, refund := s'.bookings[id].refund)
            && CountsMoved(s.instances, s'.instances, b.instance, b.seatClass == "BUSINESS", |b.passengers|)
            && |s'.seats| == |s.seats|
            && (forall k :: 0 <= k < |s.seats| ==>
                  s'.seats[k] == s.seats[k].(available := s.seats[k].available || k in Requested(b.passengers)))
            && s'.locks == s.locks && s'.fares == s.fares
  {
  }

  // ---- Refunds ---------------------------------------------------------------------------------------

  /** Paid and cancelled again within two hours, everything comes back, whatever the fare. */
  lemma GraceRefund(s: State, now: int, later: int, id: nat, user: nat)
    requires ConfirmOutcome(s, id).None? && CancelOutcome(Confirm(s, now, id), id, user).None?
    requires later <= now + 2 * Refunds.HOUR
    ensures var bookings' := Cancel(Confirm(s, now, id), later, id, user).bookings;
            id < |bookings'| && bookings'[id].refund == s.bookings[id].total
  {
  }

  /** Later than that: nothing for a non-refundable fare, otherwise 60% up to three days before departure, 25% up to
      four hours, nothing after, less the fee of each passenger, never below nothing and exact to half a paisa. */
  lemma LateRefund(s: State, now: int, later: int, id: nat, user: nat)
    requires ConfirmOutcome(s, id).None? && CancelOutcome(Confirm(s, now, id), id, user).None?
    requires later > now + 2 * Refunds.HOUR
    ensures var bookings' := Cancel(Confirm(s, now, id), later, id, user).bookings;
            && id < |bookings'| && s.bookings[id].instance < |s.instances| && s.bookings[id].fare < |s.fares|
            && var b, fare, refund := s.bookings[id], s.fares[s.bookings[id].fare], bookings'[id].refund;
               if !fare.refundable then refund == 0
               else exists percent :: Refunds.FlightTier(s.instances[b.instance].departure - later, percent)
                                      && Refunds.IsTierLess(refund, b.total, percent, fare.fee * |b.passengers|)
  {
    var b, s1 := s.bookings[id], Confirm(s, now, id);
    var left := s1.instances[b.instance].departure - later;
    var fare := s.fares[b.fare];
    Refunds.FlightRefundTold(b.total, Some(later - now), left, fare.refundable, fare.fee, |b.passengers|);
  }
}
