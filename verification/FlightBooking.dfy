/** The flight booking tables: seats held by ten-minute locks, counters moved on confirmation and cancellation. */
module FlightBooking {
  import opened Collections
  import opened SeatLocks
  import Refunds

  const HOLD: nat := 600_000
  const MAX_PASSENGERS: nat := 9

  datatype Status = Pending | Confirmed | Cancelled | Expired

  datatype Class = Economy | Business
  datatype Counts = Counts(available: int, quota: int)
  datatype Instance = Instance(departure: int, economy: Counts, business: Counts)
  {
    function Of(c: Class): Counts {
      if c == Business then business else economy
    }
  }

  datatype Seat = Seat(instance: nat, available: bool)
  datatype Fare = Fare(instance: nat, price: nat, refundable: bool, fee: nat)
  datatype Passenger = Passenger(kind: string, seat: Option<nat>)

  /** lockedUntil is no column: it is when the locks claimed for the booking lapse. */
  datatype Booking = Booking(user: nat, instance: nat, fare: nat, seatClass: string, passengers: seq<Passenger>,
                             total: nat, status: Status, expiresAt: int, lockedUntil: int,
                             confirmedAt: Option<int>, refund: nat)

  datatype State = State(instances: seq<Instance>, fares: seq<Fare>, seats: seq<Seat>, bookings: seq<Booking>,
                         locks: Table)

  datatype Request = Request(instance: nat, fare: nat, seatClass: string, passengers: seq<Passenger>, ancillaries: nat)

  datatype Error = InvalidInstance | InvalidFare | FareOfOtherInstance | TooMany | SeatTaken | SeatHeld | NotSaved
                 | BookingNotFound | NotPending | Unauthorized | NotConfirmed

  /** The counters a booking moves: business for that class exactly, economy for any other string. */
  function ClassOf(seatClass: string): Class {
    if seatClass == "BUSINESS" then Business else Economy
  }

  // ---- Creation --------------------------------------------------------------------------------------

  /** Infants take no seat, whatever they ask for. */
  function Wanted(p: Passenger): seq<nat> {
    if p.kind == "infant" || p.seat.None? then [] else [p.seat.value]
  }

  function Requested(ps: seq<Passenger>): seq<nat> {
    if ps == [] then [] else Requested(ps[..|ps| - 1]) + Wanted(ps[|ps| - 1])
  }

  /** What the lock loop stops at, alive being the locks not expired when it starts. A lock Redis answers with
      an error counts as held. */
  function ScanError(seats: seq<Seat>, alive: Table, faultAt: Option<nat>, ps: seq<Passenger>): Option<Error> {
    if ps == [] then None
    else
      var init, want := ps[..|ps| - 1], Wanted(ps[|ps| - 1]);
      var earlier := ScanError(seats, alive, faultAt, init);
      if earlier.Some? then earlier
      else if want == [] then None
      else if want[0] >= |seats| || !seats[want[0]].available then Some(SeatTaken)
      else if Key(0, want[0]) in alive || want[0] in Requested(init) || faultAt == Some(|Requested(init)|) then
        Some(SeatHeld)
      else None
  }

  /** The loop succeeds exactly when every seat asked for exists, is available, is locked by nobody and is
      asked for once, and Redis answers. */
  lemma {:induction false} ScanSucceedsIff(seats: seq<Seat>, alive: Table, faultAt: Option<nat>, ps: seq<Passenger>)
    ensures ScanError(seats, alive, faultAt, ps).None? <==>
            Bookable(seats, alive, faultAt, Requested(ps))
    decreases |ps|
  {
    if ps != [] {
      var init, want := ps[..|ps| - 1], Wanted(ps[|ps| - 1]);
      ScanSucceedsIff(seats, alive, faultAt, init);
      if want != [] {
        BookableSnoc(seats, alive, faultAt, Requested(init), want[0]);
        assert Requested(ps) == Requested(init) + [want[0]];
      } else {
        assert Requested(ps) == Requested(init);
      }
    }
  }

  predicate Bookable(seats: seq<Seat>, alive: Table, faultAt: Option<nat>, ids: seq<nat>) {
    && NoDup(ids) && Answers(faultAt, |ids|)
    && forall k :: k in ids ==> k < |seats| && seats[k].available && Key(0, k) !in alive
  }

  lemma BookableSnoc(seats: seq<Seat>, alive: Table, faultAt: Option<nat>, ids: seq<nat>, k: nat)
    ensures Bookable(seats, alive, faultAt, ids + [k]) <==>
            && Bookable(seats, alive, faultAt, ids) && k < |seats| && seats[k].available
            && Key(0, k) !in alive && k !in ids && faultAt != Some(|ids|)
  {
    NoDupSnoc(ids, k);
    assert k in ids + [k] && forall m :: m in ids ==> m in ids + [k];
  }

  function EarlyError(s: State, req: Request): Option<Error> {
    if req.instance >= |s.instances| then Some(InvalidInstance)
    else if req.fare >= |s.fares| then Some(InvalidFare)
    else if s.fares[req.fare].instance != req.instance then Some(FareOfOtherInstance)
    else if |req.passengers| > MAX_PASSENGERS then Some(TooMany)
    else None
  }

  /** The lock loop, and the insert that follows it. */
  function CommitError(s: State, now: int, env: Env, req: Request): Option<Error> {
    var stop := ScanError(s.seats, Purge(s.locks, now), env.faultAt, req.passengers);
    if stop.Some? then stop else if !env.saved then Some(NotSaved) else None
  }

  function CreateOutcome(s: State, now: int, env: Env, req: Request): Option<Error> {
    var early := EarlyError(s, req);
    if early.Some? then early else CommitError(s, now, env, req)
  }

  /** Base fare per passenger, 18% tax, the service fee and the ancillaries, to the paisa. */
  function Total(price: nat, passengers: nat, ancillaries: nat): nat {
    RoundDiv(price * passengers * 118, 100) + 50_000 + ancillaries
  }

  function Stored(p: Passenger): Passenger {
    if p.kind == "infant" then p.(seat := None) else p
  }

  function StoredAll(ps: seq<Passenger>): (r: seq<Passenger>)
    ensures |r| == |ps|
  {
    seq(|ps|, i requires 0 <= i < |ps| => Stored(ps[i]))
  }

  function NewBooking(price: nat, now: int, lag: nat, user: nat, req: Request): Booking {
    Booking(user, req.instance, req.fare, req.seatClass, StoredAll(req.passengers),
            Total(price, |req.passengers|, req.ancillaries), Pending, now + lag + HOLD, now + HOLD, None, 0)
  }

  function Create(s: State, now: int, env: Env, user: nat, req: Request): State {
    if EarlyError(s, req).Some? then s
    else
      var alive := Purge(s.locks, now);
      if CommitError(s, now, env, req).Some? then s.(locks := alive)
      else s.(bookings := s.bookings + [NewBooking(s.fares[req.fare].price, now, env.lag, user, req)],
              locks := Claimed(alive, 0, Requested(req.passengers), user, now + HOLD))
  }

  // ---- Confirmation and cancellation -----------------------------------------------------------------

  function SetAvailable(seats: seq<Seat>, ids: seq<nat>, available: bool): (r: seq<Seat>)
    ensures |r| == |seats|
    ensures forall i :: 0 <= i < |seats| ==> r[i] == if i in ids then seats[i].(available := available) else seats[i]
  {
    UpdateRows(seats, ids, (s: Seat) => s.(available := available))
  }

  function Moved(inst: Instance, c: Class, n: int): Instance {
    if c == Business then inst.(business := Counts(inst.business.available + n, inst.business.quota + n))
    else inst.(economy := Counts(inst.economy.available + n, inst.economy.quota + n))
  }

  /** Both counters of the booking's class move together, in the booking's instance only. */
  function MoveCounts(instances: seq<Instance>, b: Booking, n: int): seq<Instance> {
    if b.instance < |instances| then
      instances[b.instance := Moved(instances[b.instance], ClassOf(b.seatClass), n)]
    else instances
  }

  function ConfirmOutcome(s: State, id: nat): Option<Error> {
    if id >= |s.bookings| then Some(BookingNotFound)
    else if s.bookings[id].status != Pending then Some(NotPending)
    else None
  }

  function Confirm(s: State, now: int, id: nat): State {
    if ConfirmOutcome(s, id).Some? then s
    else
      var b := s.bookings[id];
      var ids := Requested(b.passengers);
      s.(bookings := s.bookings[id := b.(status := Confirmed, confirmedAt := Some(now))],
         seats := SetAvailable(s.seats, ids, false),
         instances := MoveCounts(s.instances, b, -|b.passengers|),
         locks := s.locks - KeysOf(0, ids))
  }

  function CancelOutcome(s: State, id: nat, user: nat): Option<Error> {
    if id >= |s.bookings| || s.bookings[id].instance >= |s.instances| || s.bookings[id].fare >= |s.fares| then
      Some(BookingNotFound)
    else if s.bookings[id].user != user then Some(Unauthorized)
    else if s.bookings[id].status != Confirmed then Some(NotConfirmed)
    else None
  }

  function RefundFor(s: State, now: int, b: Booking): nat
    requires b.instance < |s.instances| && b.fare < |s.fares|
  {
    var fare := s.fares[b.fare];
    var since := match b.confirmedAt case Some(t) => Some(now - t) case None => None;
    Refunds.FlightRefund(b.total, since, s.instances[b.instance].departure - now, fare.refundable, fare.fee,
                         |b.passengers|)
  }

  function Cancel(s: State, now: int, id: nat, user: nat): State {
    if CancelOutcome(s, id, user).Some? then s
    else
      var b := s.bookings[id];
      s.(bookings := s.bookings[id := b.(status := Cancelled, refund := RefundFor(s, now, b))],
         seats := SetAvailable(s.seats, Requested(b.passengers), true),
         instances := MoveCounts(s.instances, b, |b.passengers|))
  }

  function SweepRow(b: Booking, now: int): Booking {
    if b.status == Pending && b.expiresAt < now then b.(status := Expired) else b
  }

  function SweepRows(bookings: seq<Booking>, now: int): (r: seq<Booking>)
    ensures |r| == |bookings|
    ensures forall i :: 0 <= i < |bookings| ==> r[i] == SweepRow(bookings[i], now)
  {
    MapRows(bookings, (b: Booking) => SweepRow(b, now))
  }

  datatype Event =
    | Creating(now: int, env: Env, user: nat, req: Request)
    | Confirming(now: int, id: nat)
    | Cancelling(now: int, id: nat, user: nat)
    | Sweeping(now: int)

  function Step(s: State, e: Event): State {
    match e
    case Creating(now, env, user, req) => Create(s, now, env, user, req)
    case Confirming(now, id) => Confirm(s, now, id)
    case Cancelling(now, id, user) => Cancel(s, now, id, user)
    case Sweeping(now) => s.(bookings := SweepRows(s.bookings, now))
  }

  // ---- The service -----------------------------------------------------------------------------------

  class FlightService {
    var instances: seq<Instance>
    var fares: seq<Fare>
    var seats: seq<Seat>
    var bookings: seq<Booking>
    const rdb: Redis

    constructor (rdb: Redis, s: State)
      requires s.locks == rdb.table
      ensures this.rdb == rdb && Tables() == s
    {
      this.rdb := rdb;
      instances, fares, seats, bookings := s.instances, s.fares, s.seats, s.bookings;
    }

    function Tables(): State
      reads this, rdb
    {
      State(instances, fares, seats, bookings, rdb.table)
    }

    method CreateBooking(now: int, env: Env, user: nat, req: Request) returns (r: Option<Error>)
      modifies this, rdb
      ensures r == CreateOutcome(old(Tables()), now, env, req)
      ensures Tables() == Create(old(Tables()), now, env, user, req)
    {
      if req.instance >= |instances| {
        return Some(InvalidInstance);
      }
      if req.fare >= |fares| {
        return Some(InvalidFare);
      }
      if fares[req.fare].instance != req.instance {
        return Some(FareOfOtherInstance);
      }
      if |req.passengers| > MAX_PASSENGERS {
        return Some(TooMany);
      }
      r := LockPassengers(now, env, user, req.passengers);
      if r.Some? {
        return;
      }
      bookings := bookings + [NewBooking(fares[req.fare].price, now, env.lag, user, req)];
    }

    /** The passenger loop and the insert with their deferred release: on any failure every lock taken so far
        is given back. */
    method LockPassengers(now: int, env: Env, user: nat, ps: seq<Passenger>) returns (r: Option<Error>)
      modifies rdb
      ensures var stop := ScanError(seats, Purge(old(rdb.table), now), env.faultAt, ps);
              r == if stop.Some? then stop else if !env.saved then Some(NotSaved) else None
      ensures rdb.table == if r.Some? then Purge(old(rdb.table), now)
                           else Claimed(Purge(old(rdb.table), now), 0, Requested(ps), user, now + HOLD)
    {
      ghost var faultAt := env.faultAt;
      rdb.Expire(now);
      ghost var alive := rdb.table;
      var lockedSeats: seq<nat> := [];
      r := None;
      for i := 0 to |ps|
        invariant r == None && ScanError(seats, alive, faultAt, ps[..i]) == None && lockedSeats == Requested(ps[..i])
        invariant rdb.table == Claimed(alive, 0, lockedSeats, user, now + HOLD)
      {
        r, lockedSeats := LockNext(alive, env.faultAt, ps, i, lockedSeats, user, now + HOLD);
        if r.Some? {
          ScanStops(seats, alive, faultAt, ps, i + 1);
          return;
        }
      }
      assert ps[..|ps|] == ps;
      if !env.saved {
        ScanLeavesFree(seats, alive, faultAt, ps);
        ReleaseAll(alive, lockedSeats, user, now + HOLD);
        return Some(NotSaved);
      }
    }

    method LockNext(ghost alive: Table, faultAt: Option<nat>, ps: seq<Passenger>, i: nat, lockedSeats: seq<nat>,
                    user: nat, until: int)
      returns (r: Option<Error>, held: seq<nat>)
      requires i < |ps| && ScanError(seats, alive, faultAt, ps[..i]) == None && lockedSeats == Requested(ps[..i])
      requires rdb.table == Claimed(alive, 0, lockedSeats, user, until)
      modifies rdb
      ensures r == ScanError(seats, alive, faultAt, ps[..i + 1])
      ensures r.None? ==> held == Requested(ps[..i + 1]) && rdb.table == Claimed(alive, 0, held, user, until)
      ensures r.Some? ==> rdb.table == alive
    {
      ScanOneMore(seats, alive, faultAt, ps, i);
      r, held := None, lockedSeats;
      var want := Wanted(ps[i]);
      if want != [] {
        r := LockOne(alive, lockedSeats, want[0], faultAt == Some(|lockedSeats|), user, until);
        if r.None? {
          held := lockedSeats + [want[0]];
        } else {
          ScanLeavesFree(seats, alive, faultAt, ps[..i]);
          ReleaseAll(alive, lockedSeats, user, until);
        }
      }
    }

    /** One seated passenger: look the seat up, then take its lock. */
    method LockOne(ghost alive: Table, ghost held: seq<nat>, k: nat, fault: bool, user: nat, until: int)
      returns (r: Option<Error>)
      requires rdb.table == Claimed(alive, 0, held, user, until)
      modifies rdb
      ensures r == if k >= |seats| || !seats[k].available then Some(SeatTaken)
                   else if Key(0, k) in alive || k in held || fault then Some(SeatHeld) else None
      ensures rdb.table == Claimed(alive, 0, if r.Some? then held else held + [k], user, until)
    {
      if k >= |seats| || !seats[k].available {
        return Some(SeatTaken);
      }
      if fault {
        return Some(SeatHeld);
      }
      var acquired := rdb.SetNX(Key(0, k), user, until);
      ClaimSnoc(alive, 0, held, k, user, until);
      r := if acquired then None else Some(SeatHeld);
    }

    method ReleaseAll(ghost alive: Table, lockedSeats: seq<nat>, ghost user: nat, ghost until: int)
      requires rdb.table == Claimed(alive, 0, lockedSeats, user, until)
      requires forall k :: k in lockedSeats ==> Key(0, k) !in alive
      modifies rdb
      ensures rdb.table == alive
    {
      ClaimedExactly(alive, 0, lockedSeats, user, until);
      ReleaseLocks(lockedSeats);
      assert forall k :: k in KeysOf(0, lockedSeats) ==> k !in alive;
      assert rdb.table == alive;
    }

    method ReleaseLocks(ids: seq<nat>)
      modifies rdb
      ensures rdb.table == old(rdb.table) - KeysOf(0, ids)
    {
      for i := 0 to |ids|
        invariant rdb.table == old(rdb.table) - KeysOf(0, ids[..i])
      {
        KeysOfSnoc(0, ids, i);
        rdb.Del({Key(0, ids[i])});
      }
      assert ids[..|ids|] == ids;
    }

    method ConfirmBooking(now: int, id: nat) returns (r: Option<Error>)
      modifies this, rdb
      ensures r == ConfirmOutcome(old(Tables()), id)
      ensures Tables() == Confirm(old(Tables()), now, id)
    {
      if id >= |bookings| {
        return Some(BookingNotFound);
      }
      var b := bookings[id];
      if b.status != Pending {
        return Some(NotPending);
      }
      ConfirmBookingAndSeats(id, b.(status := Confirmed, confirmedAt := Some(now)));
      ReleaseLocks(Requested(b.passengers));
      return None;
    }

    method ConfirmBookingAndSeats(id: nat, b: Booking)
      requires id < |bookings|
      modifies this
      ensures Tables() == old(Tables()).(bookings := old(bookings)[id := b],
                                         seats := SetAvailable(old(seats), Requested(b.passengers), false),
                                         instances := MoveCounts(old(instances), b, -|b.passengers|))
    {
      Count(b, -|b.passengers|);
      bookings := bookings[id := b];
      seats := SetAvailable(seats, Requested(b.passengers), false);
    }

    method Count(b: Booking, n: int)
      requires |b.passengers| == 0 ==> n == 0
      modifies this`instances
      ensures instances == MoveCounts(old(instances), b, n)
    {
      if |b.passengers| > 0 {
        if b.instance < |instances| {
          var inst := instances[b.instance];
          if b.seatClass == "BUSINESS" {
            inst := inst.(business := Counts(inst.business.available + n, inst.business.quota + n));
          } else {
            inst := inst.(economy := Counts(inst.economy.available + n, inst.economy.quota + n));
          }
          instances := instances[b.instance := inst];
        }
      }
    }

    method CancelBooking(now: int, id: nat, user: nat) returns (r: Option<Error>)
      modifies this
      ensures r == CancelOutcome(old(Tables()), id, user)
      ensures Tables() == Cancel(old(Tables()), now, id, user)
    {
      if id >= |bookings| || bookings[id].instance >= |instances| || bookings[id].fare >= |fares| {
        return Some(BookingNotFound);
      }
      var b := bookings[id];
      if b.user != user {
        return Some(Unauthorized);
      }
      if b.status != Confirmed {
        return Some(NotConfirmed);
      }
      var refund := RefundFor(Tables(), now, b);
      bookings := bookings[id := b.(status := Cancelled, refund := refund)];
      seats := SetAvailable(seats, Requested(b.passengers), true);
      Count(b, |b.passengers|);
      return None;
    }

    /** The payment.completed consumer. */
    method ProcessPaymentEvent(now: int, id: nat)
      modifies this, rdb
      ensures Tables() == Confirm(old(Tables()), now, id)
    {
      if id >= |bookings| || bookings[id].status != Pending {
        return;
      }
      var _ := ConfirmBooking(now, id);
    }

    /** The rows that change are the pending ones past their window, and they change to EXPIRED; no pending row
        past its window is left. */
    method CleanupExpiredBookings(now: int)
      modifies this
      ensures Tables() == Step(old(Tables()), Sweeping(now))
      ensures forall i :: 0 <= i < |bookings| ==>
                if old(bookings)[i].status == Pending && old(bookings)[i].expiresAt < now
                then bookings[i] == old(bookings)[i].(status := Expired) else bookings[i] == old(bookings)[i]
      ensures forall i :: 0 <= i < |bookings| && bookings[i].status == Pending ==> now <= bookings[i].expiresAt
    {
      for i := 0 to |bookings|
        invariant |bookings| == |old(bookings)|
        invariant Tables() == old(Tables()).(bookings := bookings)
        invariant forall j :: 0 <= j < |bookings| ==>
                    bookings[j] == if j < i then SweepRow(old(bookings)[j], now) else old(bookings)[j]
      {
        if bookings[i].status == Pending && bookings[i].expiresAt < now {
          bookings := bookings[i := bookings[i].(status := Expired)];
        }
      }
    }
  }

  /** One turn of the loop. */
  lemma ScanOneMore(seats: seq<Seat>, alive: Table, faultAt: Option<nat>, ps: seq<Passenger>, i: nat)
    requires i < |ps| && ScanError(seats, alive, faultAt, ps[..i]).None?
    ensures Requested(ps[..i + 1]) == Requested(ps[..i]) + Wanted(ps[i])
    ensures var want, held := Wanted(ps[i]), Requested(ps[..i]);
            ScanError(seats, alive, faultAt, ps[..i + 1]) ==
              if want == [] then None
              else if want[0] >= |seats| || !seats[want[0]].available then Some(SeatTaken)
              else if Key(0, want[0]) in alive || want[0] in held || faultAt == Some(|held|) then Some(SeatHeld)
              else None
  {
    assert ps[..i + 1][..i] == ps[..i];
  }

  lemma ScanLeavesFree(seats: seq<Seat>, alive: Table, faultAt: Option<nat>, ps: seq<Passenger>)
    requires ScanError(seats, alive, faultAt, ps).None?
    ensures forall k :: k in Requested(ps) ==> Key(0, k) !in alive
  {
    ScanSucceedsIff(seats, alive, faultAt, ps);
  }

  lemma {:induction false} ScanStops(seats: seq<Seat>, alive: Table, faultAt: Option<nat>, ps: seq<Passenger>, n: nat)
    requires n <= |ps| && ScanError(seats, alive, faultAt, ps[..n]).Some?
    ensures ScanError(seats, alive, faultAt, ps) == ScanError(seats, alive, faultAt, ps[..n])
    decreases |ps| - n
  {
    if n == |ps| {
      assert ps[..n] == ps;
    } else {
      assert ps[..n + 1][..n] == ps[..n];
      ScanStops(seats, alive, faultAt, ps, n + 1);
    }
  }
}
