/** What bus requests are answered and what they leave behind, told without the functions that compute it. */
module BusAnswers {
  import opened Collections
  import opened SeatLocks
  import opened BusBooking
  import opened BusLedger
  import Refunds

  // ---- Passengers ------------------------------------------------------------------------------------

  /** Upper-casing leaves everything but small letters alone. */
  lemma UpperTold(s: string)
    ensures |Upper(s)| == |s|
    ensures forall i :: 0 <= i < |s| && !('a' <= s[i] <= 'z') ==> Upper(s)[i] == s[i]
    ensures forall i :: 0 <= i < |s| && 'a' <= s[i] <= 'z' ==>
              'A' <= Upper(s)[i] <= 'Z' && Upper(s)[i] as int - 'A' as int == s[i] as int - 'a' as int
    ensures Upper("women") == "WOMEN" && Upper("men") == "MEN"
  {
  }

  /** The seat may be sold to this passenger: it is an available seat of the bus and of the fare's type, and it is
      kept for women or men only if the passenger is one. */
  predicate SeatFits(seats: seq<Seat>, fare: Fare, trip: nat, k: nat, gender: string) {
    && k < |seats| && seats[k].available && seats[k].trip == trip && seats[k].seatType == fare.seatType
    && (seats[k].category == "WOMEN" ==> Upper(gender) == "WOMEN")
    && (seats[k].category == "MEN" ==> Upper(gender) == "MEN")
  }

  predicate Fits(seats: seq<Seat>, fare: Fare, trip: nat, p: Passenger) {
    p.validBirthDate && (p.seat.Some? ==> SeatFits(seats, fare, trip, p.seat.value, p.gender))
  }

  /** The passenger loop passes exactly when every passenger fits. */
  lemma {:induction false} AllFitIff(seats: seq<Seat>, fare: Fare, trip: nat, ps: seq<Passenger>)
    ensures FirstError(seats, fare, trip, ps).None? <==> forall i :: 0 <= i < |ps| ==> Fits(seats, fare, trip, ps[i])
    decreases |ps|
  {
    if ps != [] {
      var n := |ps| - 1;
      AllFitIff(seats, fare, trip, ps[..n]);
      assert forall i :: 0 <= i < n ==> ps[..n][i] == ps[i];
    }
  }

  /** What is wrong with a passenger who gets this answer. */
  predicate Wrong(seats: seq<Seat>, fare: Fare, trip: nat, p: Passenger, e: Error) {
    match p.seat
    case None => e == BadBirthDate && !p.validBirthDate
    case Some(k) =>
      match e
      case SeatNotFound => k >= |seats|
      case SeatTaken => k < |seats| && !seats[k].available
      case WrongSeatType => k < |seats| && seats[k].seatType != fare.seatType
      case SeatOfOtherBus => k < |seats| && seats[k].trip != trip
      case WomenOnly => k < |seats| && seats[k].category == "WOMEN" && Upper(p.gender) != "WOMEN"
      case MenOnly => k < |seats| && seats[k].category == "MEN" && Upper(p.gender) != "MEN"
      case BadBirthDate => !p.validBirthDate && SeatFits(seats, fare, trip, k, p.gender)
      case _ => false
  }

  /** The answer is about the first passenger who does not fit, and says what is wrong with them. */
  lemma {:induction false} FirstWrong(seats: seq<Seat>, fare: Fare, trip: nat, ps: seq<Passenger>) returns (i: nat)
    requires FirstError(seats, fare, trip, ps).Some?
    ensures i < |ps| && Wrong(seats, fare, trip, ps[i], FirstError(seats, fare, trip, ps).value)
    ensures forall j :: 0 <= j < i ==> Fits(seats, fare, trip, ps[j])
    decreases |ps|
  {
    var n := |ps| - 1;
    if FirstError(seats, fare, trip, ps[..n]).Some? {
      i := FirstWrong(seats, fare, trip, ps[..n]);
    } else {
      i := n;
      AllFitIff(seats, fare, trip, ps[..n]);
      assert forall j :: 0 <= j < n ==> ps[..n][j] == ps[j];
    }
  }

  predicate AsksFor(ps: seq<Passenger>, i: int, k: nat) {
    0 <= i < |ps| && ps[i].seat == Some(k)
  }

  /** The seats asked for are those of the passengers who name one. */
  lemma {:induction false} RequestedTold(ps: seq<Passenger>, k: nat)
    ensures k in Requested(ps) <==> exists i :: AsksFor(ps, i, k)
    decreases |ps|
  {
    if ps != [] {
      var init, n := ps[..|ps| - 1], |ps| - 1;
      RequestedTold(init, k);
      assert forall i :: AsksFor(ps, i, k) <==> AsksFor(init, i, k) || (i == n && ps[n].seat == Some(k));
      assert ps[n].seat == Some(k) ==> AsksFor(ps, n, k);
    }
  }

  /** They are as many as there are such passengers. */
  lemma {:induction false} RequestedCount(ps: seq<Passenger>)
    ensures |Requested(ps)| == |set i: nat | i < |ps| && ps[i].seat.Some?|
    decreases |ps|
  {
    var seated := set i: nat | i < |ps| && ps[i].seat.Some?;
    if ps == [] {
      assert seated == {};
    } else {
      var n := |ps| - 1;
      var before := set i: nat | i < |ps[..n]| && ps[..n][i].seat.Some?;
      RequestedCount(ps[..n]);
      assert seated == before + if ps[n].seat.Some? then {n} else {};
    }
  }

  // ---- Prices ----------------------------------------------------------------------------------------

  /** Half prices add up passenger by passenger. */
  lemma {:induction false} HalfPricesAdd(seats: seq<Seat>, fare: Fare, a: seq<Passenger>, b: seq<Passenger>)
    ensures HalfPrices(seats, fare, a + b) == HalfPrices(seats, fare, a) + HalfPrices(seats, fare, b)
    ensures |a| == 1 ==> HalfPrices(seats, fare, a) == HalfPrice(seats, fare, a[0])
    decreases |b|
  {
    if b == [] {
      assert a + b == a;
    } else {
      assert (a + b)[..|a + b| - 1] == a + b[..|b| - 1];
      HalfPricesAdd(seats, fare, a, b[..|b| - 1]);
    }
  }

  /** A seat costs the fare and its extra charge, a place without a seat the fare; children pay half, and so do
      infants without a seat. */
  lemma PriceTold(seats: seq<Seat>, fare: Fare, p: Passenger)
    requires p.seat.Some? ==> p.seat.value < |seats|
    ensures var whole := fare.price + if p.seat.Some? then seats[p.seat.value].extra else 0;
            var half := p.kind == "child" || (p.kind == "infant" && p.seat.None?);
            2 * HalfPrice(seats, fare, p) == if half then 2 * whole else 4 * whole
  {
  }

  /** The total is the prices and 5% tax, exact to half a paisa: 200 paise of it are 105 half paise. */
  lemma TotalTold(half: nat)
    ensures -100 <= 200 * Total(half) - 105 * half <= 100
  {
  }

  // ---- Requests --------------------------------------------------------------------------------------

  /** Fare and points are of the requested bus, boarding before dropping. */
  predicate TripFits(s: State, req: Request) {
    && req.fare < |s.fares| && s.fares[req.fare].trip == req.trip
    && req.boarding < |s.boarding| && s.boarding[req.boarding].trip == req.trip
    && req.dropping < |s.dropping| && s.dropping[req.dropping].trip == req.trip
    && s.boarding[req.boarding].sequence < s.dropping[req.dropping].sequence
  }

  ghost predicate Unclaimed(s: State, now: int, env: Env, req: Request) {
    && (forall i, k: nat :: AsksFor(req.passengers, i, k) ==> !Live(s.locks, Key(req.trip, k), now))
    && Answers(env.faultAt, |FirstOccurrences(Requested(req.passengers))|)
  }

  lemma ClaimOkIff(s: State, now: int, env: Env, req: Request)
    ensures ClaimOk(s.locks, now, env, req) <==> Unclaimed(s, now, env, req)
  {
    forall k: nat
      ensures k in Requested(req.passengers) <==> exists i :: AsksFor(req.passengers, i, k)
    {
      RequestedTold(req.passengers, k);
    }
  }

  /** Exactly the requests that become bookings. */
  lemma AcceptedIff(s: State, now: int, env: Env, req: Request)
    ensures CreateOutcome(s, now, env, req).None? <==>
            && req.passengers != [] && TripFits(s, req)
            && (forall i :: 0 <= i < |req.passengers| ==> Fits(s.seats, s.fares[req.fare], req.trip, req.passengers[i]))
            && Unclaimed(s, now, env, req) && env.saved
  {
    if req.fare < |s.fares| {
      AllFitIff(s.seats, s.fares[req.fare], req.trip, req.passengers);
    }
    ClaimOkIff(s, now, env, req);
  }

  /** What is wrong with a request that gets this answer before its seats are looked at, or after. */
  ghost predicate Refused(s: State, now: int, env: Env, req: Request, e: Error) {
    match e
    case NoPassengers => req.passengers == []
    case FareNotFound => req.fare >= |s.fares|
    case FareOfOtherBus => req.fare < |s.fares| && s.fares[req.fare].trip != req.trip
    case PointNotFound => req.boarding >= |s.boarding| || req.dropping >= |s.dropping|
    case PointOfOtherBus =>
      req.boarding < |s.boarding| && req.dropping < |s.dropping|
      && (s.boarding[req.boarding].trip != req.trip || s.dropping[req.dropping].trip != req.trip)
    case WrongDirection =>
      req.boarding < |s.boarding| && req.dropping < |s.dropping|
      && s.boarding[req.boarding].sequence >= s.dropping[req.dropping].sequence
    case SeatHeld => !Unclaimed(s, now, env, req)
    case NotSaved => Unclaimed(s, now, env, req) && !env.saved
    case _ =>
      TripFits(s, req)
      && exists i :: 0 <= i < |req.passengers| && Wrong(s.seats, s.fares[req.fare], req.trip, req.passengers[i], e)
  }

  lemma RefusedBecause(s: State, now: int, env: Env, req: Request)
    requires CreateOutcome(s, now, env, req).Some?
    ensures Refused(s, now, env, req, CreateOutcome(s, now, env, req).value)
  {
    ClaimOkIff(s, now, env, req);
    if TripFits(s, req) && req.passengers != [] {
      var fare := s.fares[req.fare];
      if FirstError(s.seats, fare, req.trip, req.passengers).Some? {
        var i := FirstWrong(s.seats, fare, req.trip, req.passengers);
      }
    }
  }

  // ---- What an accepted request writes ---------------------------------------------------------------

  /** An accepted request appends one PENDING_PAYMENT row, payable for ttl from when it is stamped; no seat, account or
      other row changes. */
  lemma CreatedRow(cfg: Config, s: State, now: int, env: Env, user: nat, req: Request) returns (b: Booking)
    requires CreateOutcome(s, now, env, req).None?
    ensures var s' := Create(cfg, s, now, env, user, req); s' == s.(bookings := s.bookings + [b], locks := s'.locks)
    ensures b.user == user && b.trip == req.trip && b.fare == req.fare && b.seats == Requested(req.passengers)
    ensures b.status == Pending && !b.wasConfirmed && b.refund == 0
    ensures b.expiresAt == now + env.lag + cfg.ttl && b.lockedUntil == now + cfg.ttl
    ensures req.fare < |s.fares| && b.total == Total(HalfPrices(s.seats, s.fares[req.fare], req.passengers))
  {
    b := NewBooking(cfg, HalfPrices(s.seats, s.fares[req.fare], req.passengers), now, env.lag, user, req);
  }

  lemma ClaimTold(cfg: Config, s: State, now: int, env: Env, user: nat, req: Request)
    requires CreateOutcome(s, now, env, req).None?
    ensures Create(cfg, s, now, env, user, req).locks
         == Claimed(Purge(s.locks, now), req.trip, Requested(req.passengers), user, now + cfg.ttl)
  {
  }

  /** It locks the seats asked for, and no others, for ttl from the claim. */
  lemma CreatedLocks(cfg: Config, s: State, now: int, env: Env, user: nat, req: Request, k: Key, at: int)
    requires CreateOutcome(s, now, env, req).None? && now <= at
    ensures Live(Create(cfg, s, now, env, user, req).locks, k, at) <==>
              if k in KeysOf(req.trip, Requested(req.passengers)) then at <= now + cfg.ttl else Live(s.locks, k, at)
  {
    var seats, locks := Requested(req.passengers), Create(cfg, s, now, env, user, req).locks;
    var claimed := Claimed(Purge(s.locks, now), req.trip, seats, user, now + cfg.ttl);
    assert locks == claimed by {
      ClaimTold(cfg, s, now, env, user, req);
    }
    ClaimedLive(s.locks, req.trip, seats, user, now + cfg.ttl, now, k, at);
  }

  /** A refused request changes nothing but dead locks. */
  lemma RefusedWritesNothing(cfg: Config, s: State, now: int, env: Env, user: nat, req: Request)
    requires CreateOutcome(s, now, env, req).Some?
    ensures var s' := Create(cfg, s, now, env, user, req);
            s' == s.(locks := s'.locks) && forall k, at :: now <= at ==>
              (Live(s'.locks, k, at) <==> Live(s.locks, k, at))
  {
  }

  /** Up to this moment the booking can be paid, from then on a sweep or a payment expires it. */
  predicate WindowEnds(s: State, id: nat, end: int, later: int) {
    && id < |s.bookings| == |Sweep(s, later).bookings|
    && Sweep(s, later).bookings[id].status == (if later > end then Expired else Pending)
    && |Confirm(s, later, id, s.bookings[id].user).bookings| == |s.bookings|
    && Confirm(s, later, id, s.bookings[id].user).bookings[id].status == if later > end then Expired else Confirmed
  }

  lemma PendingWindow(s: State, id: nat, later: int)
    requires id < |s.bookings| && s.bookings[id].status == Pending
    ensures WindowEnds(s, id, s.bookings[id].expiresAt, later)
  {
  }

  /** A new booking is swept by exactly the sweeps after its window, and a payment counts exactly until its end. */
  lemma PayableInWindow(cfg: Config, s: State, now: int, env: Env, user: nat, req: Request, later: int)
    requires CreateOutcome(s, now, env, req).None?
    ensures WindowEnds(Create(cfg, s, now, env, user, req), |s.bookings|, now + env.lag + cfg.ttl, later)
  {
    var b := CreatedRow(cfg, s, now, env, user, req);
    PendingWindow(Create(cfg, s, now, env, user, req), |s.bookings|, later);
  }

  // ---- Statuses --------------------------------------------------------------------------------------

  /** The event moves booking id to this status. */
  predicate Moves(s: State, e: Event, id: nat, status: Status)
    requires id < |s.bookings|
  {
    var b := s.bookings[id];
    match status
    case Pending => false
    case Confirmed =>
      e.Confirming? && e.id == id && e.user == b.user && b.status == Pending && e.now <= b.expiresAt
    case Cancelled => e.Cancelling? && e.id == id && CancelOutcome(s, e.now, id, e.caller).None?
    case Expired =>
      b.status == Pending && e.now > b.expiresAt
      && (e.Sweeping? || (e.Confirming? && e.id == id && e.user == b.user))
  }

  lemma CreateMoves(cfg: Config, s: State, now: int, env: Env, user: nat, req: Request, id: nat)
    requires id < |s.bookings|
    ensures var s' := Create(cfg, s, now, env, user, req); id < |s'.bookings| && s'.bookings[id] == s.bookings[id]
  {
  }

  lemma ConfirmMoves(s: State, now: int, other: nat, user: nat, id: nat)
    requires id < |s.bookings|
    ensures var s', e := Confirm(s, now, other, user), Confirming(now, other, user);
            && |s'.bookings| == |s.bookings|
            && s'.bookings[id] ==
                 if Moves(s, e, id, Confirmed) then s.bookings[id].(status := Confirmed, wasConfirmed := true)
                 else if Moves(s, e, id, Expired) then s.bookings[id].(status := Expired)
                 else s.bookings[id]
  {
  }

  lemma CancelMoves(s: State, now: int, other: nat, caller: Option<nat>, policies: seq<Refunds.Policy>, id: nat)
    requires id < |s.bookings|
    ensures var s', e := Cancel(s, now, other, caller, policies), Cancelling(now, other, caller, policies);
            && |s'.bookings| == |s.bookings|
            && (if Moves(s, e, id, Cancelled) then s'.bookings[id].status == Cancelled
                else s'.bookings[id] == s.bookings[id])
  {
  }

  /** Exactly which events change a booking's status, and to what. */
  lemma StatusMoves(cfg: Config, s: State, e: Event, id: nat)
    requires id < |s.bookings|
    ensures var bookings' := Step(cfg, s, e).bookings;
            && id < |bookings'|
            && (forall status :: Moves(s, e, id, status) ==> bookings'[id].status == status)
            && ((forall status :: !Moves(s, e, id, status)) ==> bookings'[id] == s.bookings[id])
  {
    match e
    case Creating(now, env, user, req) => CreateMoves(cfg, s, now, env, user, req, id);
    case Confirming(now, other, user) => ConfirmMoves(s, now, other, user, id);
    case Cancelling(now, other, caller, policies) => CancelMoves(s, now, other, caller, policies, id);
    case Sweeping(now) =>
      assert Moves(s, e, id, Expired) <==> s.bookings[id].status == Pending && now > s.bookings[id].expiresAt;
    case Finalizing(now) =>
  }

  // ---- Confirmations ---------------------------------------------------------------------------------

  /** What a confirmation is answered. */
  lemma ConfirmAnswer(s: State, now: int, id: nat, user: nat)
    ensures var out := ConfirmOutcome(s, now, id, user);
            && (out == Some(BookingNotFound) <==> id >= |s.bookings| || s.bookings[id].user != user)
            && (out == Some(NotPending) <==>
                  id < |s.bookings| && s.bookings[id].user == user && s.bookings[id].status != Pending)
            && (out == Some(TimedOut) <==>
                  id < |s.bookings| && s.bookings[id].user == user && s.bookings[id].status == Pending
                  && now > s.bookings[id].expiresAt)
            && (out.Some? ==> out.value in {BookingNotFound, NotPending, TimedOut})
  {
  }

  /** An accepted confirmation shuts the booking's seats, drops its own live locks on them and books its total. */
  lemma ConfirmWrites(s: State, now: int, id: nat, user: nat)
    requires ConfirmOutcome(s, now, id, user).None?
    ensures var b, s' := s.bookings[id], Confirm(s, now, id, user);
            && s' == s.(bookings := s'.bookings, seats := s'.seats, locks := s'.locks, accounts := s'.accounts)
            && |s'.seats| == |s.seats|
            && (forall k :: 0 <= k < |s.seats| ==>
                  s'.seats[k] == s.seats[k].(available := s.seats[k].available && k !in b.seats))
            && (forall k :: k in s'.locks <==>
                  k in s.locks && !(k in KeysOf(b.trip, b.seats) && Live(s.locks, k, now) && s.locks[k].owner == user))
            && (forall t :: t in s.accounts <==> t in s'.accounts)
            && (forall t :: t in s.accounts ==>
                  s'.accounts[t] == s.accounts[t].(profit := s.accounts[t].profit + if t == b.trip then b.total else 0))
  {
  }

  // ---- Cancellations ---------------------------------------------------------------------------------

  /** What a cancellation is answered: the owner or an admin may take back a paid or unpaid booking of a known bus
      and fare until departure. */
  lemma CancelAnswer(s: State, now: int, id: nat, caller: Option<nat>)
    ensures var out := CancelOutcome(s, now, id, caller);
            if id >= |s.bookings| then out == Some(BookingNotFound)
            else
              var b := s.bookings[id];
              var owned, kept := caller.None? || caller.value == b.user, b.trip in s.departures && b.fare < |s.fares|;
              && (out == Some(NotCancellable) <==> owned && b.status in {Cancelled, Expired})
              && (out == Some(BookingNotFound) <==> !owned || (b.status in {Pending, Confirmed} && !kept))
              && (out == Some(Departed) <==>
                    owned && b.status in {Pending, Confirmed} && kept && s.departures[b.trip] <= now)
              && (out.Some? ==> out.value in {BookingNotFound, NotCancellable, Departed})
  {
    if id < |s.bookings| && s.bookings[id].trip in s.departures {
      Refunds.CancellationWindows(s.departures[s.bookings[id].trip] - now);
    }
  }

  /** An accepted cancellation opens the booking's seats, drops its user's live locks on them, and takes the refund of
      a confirmed one out of the profit. */
  lemma CancelWrites(s: State, now: int, id: nat, caller: Option<nat>, policies: seq<Refunds.Policy>)
    requires CancelOutcome(s, now, id, caller).None?
    ensures var b, s' := s.bookings[id], Cancel(s, now, id, caller, policies);
            && s' == s.(bookings := s'.bookings, seats := s'.seats, locks := s'.locks, accounts := s'.accounts)
            && |s'.bookings| == |s.bookings|
            && s'.bookings[id] == b.(status := Cancelled, refund := s'.bookings[id].refund)
            && |s'.seats| == |s.seats|
            && (forall k :: 0 <= k < |s.seats| ==>
                  s'.seats[k] == s.seats[k].(available := s.seats[k].available || k in b.seats))
            && (forall k :: k in s'.locks <==>
                  k in s.locks
                  && !(k in KeysOf(b.trip, b.seats) && Live(s.locks, k, now) && s.locks[k].owner == b.user))
            && (forall t :: t in s.accounts <==> t in s'.accounts)
            && (forall t :: t in s.accounts ==>
                  s'.accounts[t] == s.accounts[t].(profit := s.accounts[t].profit
                    - if t == b.trip && b.status == Confirmed then s'.bookings[id].refund else 0))
  {
  }

  /** The hours left, every started one counted. */
  predicate HoursLeft(hours: int, ms: int) {
    Refunds.HOUR * (hours - 1) < ms <= Refunds.HOUR * hours
  }

  /** The recorded refund: nothing for an unpaid booking, a non-refundable fare or a time no row covers, otherwise the
      applying row's share of the total, to half a paisa, less its fee. */
  lemma RefundRecorded(s: State, now: int, id: nat, caller: Option<nat>, policies: seq<Refunds.Policy>, hours: int)
    requires CancelOutcome(s, now, id, caller).None?
    requires HoursLeft(hours, s.departures[s.bookings[id].trip] - now)
    ensures var b, bookings' := s.bookings[id], Cancel(s, now, id, caller, policies).bookings;
            && id < |bookings'|
            && if b.status == Pending || !s.fares[b.fare].refundable
                  || !exists q :: q in policies && q.active && q.threshold <= hours then bookings'[id].refund == 0
               else exists p :: Refunds.Applies(policies, hours, p)
                                && Refunds.IsShareLess(bookings'[id].refund, b.total, p.percent, p.fee)
  {
    var b := s.bookings[id];
    Refunds.HoursTold(s.departures[b.trip] - now);
    Refunds.BusRefundTold(b.total, b.status == Confirmed, s.fares[b.fare].refundable, policies, hours);
  }

  // ---- Accounts --------------------------------------------------------------------------------------

  /** The bus left on that day, and by that time. */
  predicate LeftToday(a: Account, day: int, now: int) {
    day * 24 * Refunds.HOUR <= a.departure <= now < (day + 1) * 24 * Refunds.HOUR
  }

  /** The accounting job closes exactly the open accounts of buses that left today, with the loss they stand at,
      and touches nothing else. */
  lemma FinalizeTold(s: State, now: int, day: int)
    requires day * 24 * Refunds.HOUR <= now < (day + 1) * 24 * Refunds.HOUR
    ensures var s' := Finalize(s, now);
            && s' == s.(accounts := s'.accounts)
            && (forall t :: t in s.accounts <==> t in s'.accounts)
            && (forall t :: t in s.accounts ==>
                  var a, a' := s.accounts[t], s'.accounts[t];
                  if !a.finalized && LeftToday(a, day, now)
                  then a'.finalized && a'.loss == Shortfall(a) && a' == a.(loss := a'.loss, finalized := true)
                  else a' == a)
  {
    assert now - now % DAY == day * DAY;
  }

  /** So run once more on the day a bus leaves, the job leaves its account closed. */
  lemma ClosedByTheEndOfDay(s: State, now: int, day: int, t: nat)
    requires t in s.accounts && LeftToday(s.accounts[t], day, now)
    ensures t in Finalize(s, now).accounts && Finalize(s, now).accounts[t].finalized
    ensures !s.accounts[t].finalized ==>
              Finalize(s, now).accounts[t].loss == if s.accounts[t].spend > s.accounts[t].profit
                                                   then s.accounts[t].spend - s.accounts[t].profit else 0
  {
    FinalizeTold(s, now, day);
  }
}
