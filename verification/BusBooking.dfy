/** The bus booking tables: seats are held by timed locks alone until a payment confirms them. */
module BusBooking {
  import opened Collections
  import opened SeatLocks
  import Refunds

  const DAY: int := 86_400_000

  datatype Status = Pending | Confirmed | Cancelled | Expired

  datatype Seat = Seat(trip: nat, available: bool, seatType: string, category: string, extra: nat)
  datatype Fare = Fare(trip: nat, seatType: string, price: nat, refundable: bool)
  datatype Point = Point(trip: nat, sequence: int)
  datatype Passenger = Passenger(seat: Option<nat>, gender: string, kind: string, validBirthDate: bool)

  /** wasConfirmed: confirmed_at is set. refund: the amount of the cancellation row, 0 while there is none.
      lockedUntil is no column: it is when the locks claimed for the booking lapse. */
  datatype Booking = Booking(user: nat, trip: nat, fare: nat, seats: seq<nat>, total: nat, status: Status,
                             expiresAt: int, lockedUntil: int, wasConfirmed: bool, refund: nat)

  datatype Account = Account(departure: int, spend: nat, profit: int, loss: int, finalized: bool)

  /** Locks live for ttl; gap is the longest time a request takes from claiming them to stamping ExpiresAt. */
  datatype Config = Config(ttl: nat, gap: nat)

  datatype State = State(
    fares: seq<Fare>,
    boarding: seq<Point>,
    dropping: seq<Point>,
    departures: map<nat, int>,
    seats: seq<Seat>,
    bookings: seq<Booking>,
    accounts: map<nat, Account>,
    locks: Table)

  datatype Request = Request(trip: nat, fare: nat, boarding: nat, dropping: nat, passengers: seq<Passenger>)

  datatype Error = NoPassengers | FareNotFound | FareOfOtherBus | PointNotFound | PointOfOtherBus | WrongDirection
                 | SeatNotFound | SeatTaken | WrongSeatType | SeatOfOtherBus | WomenOnly | MenOnly | BadBirthDate
                 | SeatHeld | NotSaved | BookingNotFound | NotPending | TimedOut | NotCancellable | Departed

  // ---- Creation --------------------------------------------------------------------------------------

  function Upper(s: string): string {
    seq(|s|, i requires 0 <= i < |s| => if 'a' <= s[i] <= 'z' then (s[i] as int - 32) as char else s[i])
  }

  function PassengerError(seats: seq<Seat>, fare: Fare, trip: nat, p: Passenger): Option<Error> {
    match p.seat
    case None => if p.validBirthDate then None else Some(BadBirthDate)
    case Some(k) =>
      if k >= |seats| then Some(SeatNotFound)
      else
        var seat := seats[k];
        if !seat.available then Some(SeatTaken)
        else if seat.seatType != fare.seatType then Some(WrongSeatType)
        else if seat.trip != trip then Some(SeatOfOtherBus)
        else if seat.category == "WOMEN" && Upper(p.gender) != "WOMEN" then Some(WomenOnly)
        else if seat.category == "MEN" && Upper(p.gender) != "MEN" then Some(MenOnly)
        else if !p.validBirthDate then Some(BadBirthDate)
        else None
  }

  /** One passenger's price in half paise: children pay half, and infants too when they have no seat. */
  function HalfPrice(seats: seq<Seat>, fare: Fare, p: Passenger): nat {
    match p.seat
    case Some(k) =>
      var price := fare.price + if k < |seats| then seats[k].extra else 0;
      if p.kind == "child" then price else 2 * price
    case None => if p.kind == "child" || p.kind == "infant" then fare.price else 2 * fare.price
  }

  function FirstError(seats: seq<Seat>, fare: Fare, trip: nat, ps: seq<Passenger>): Option<Error> {
    if ps == [] then None
    else
      var earlier := FirstError(seats, fare, trip, ps[..|ps| - 1]);
      if earlier.Some? then earlier else PassengerError(seats, fare, trip, ps[|ps| - 1])
  }

  function HalfPrices(seats: seq<Seat>, fare: Fare, ps: seq<Passenger>): nat {
    if ps == [] then 0
    else HalfPrices(seats, fare, ps[..|ps| - 1]) + HalfPrice(seats, fare, ps[|ps| - 1])
  }

  /** The seats the passengers ask for, repeats included. */
  function Requested(ps: seq<Passenger>): seq<nat> {
    if ps == [] then []
    else
      Requested(ps[..|ps| - 1])
      + match ps[|ps| - 1].seat
        case Some(k) => [k]
        case None => []
  }

  /** Base fare plus 5% tax, to the paisa. */
  function Total(halfPaise: nat): nat {
    RoundDiv(halfPaise * 105, 200)
  }

  function EarlyError(s: State, req: Request): Option<Error> {
    if req.passengers == [] then Some(NoPassengers)
    else if req.fare >= |s.fares| then Some(FareNotFound)
    else if s.fares[req.fare].trip != req.trip then Some(FareOfOtherBus)
    else if req.boarding >= |s.boarding| || req.dropping >= |s.dropping| then Some(PointNotFound)
    else if s.boarding[req.boarding].trip != req.trip || s.dropping[req.dropping].trip != req.trip then
      Some(PointOfOtherBus)
    else if s.boarding[req.boarding].sequence >= s.dropping[req.dropping].sequence then Some(WrongDirection)
    else FirstError(s.seats, s.fares[req.fare], req.trip, req.passengers)
  }

  /** The claim succeeds: nobody holds a requested seat, and Redis answers for each of them. */
  predicate ClaimOk(locks: Table, now: int, env: Env, req: Request) {
    var wanted := Requested(req.passengers);
    AllFree(locks, req.trip, wanted, now) && Answers(env.faultAt, |FirstOccurrences(wanted)|)
  }

  function CommitError(locks: Table, now: int, env: Env, req: Request): Option<Error> {
    if !ClaimOk(locks, now, env, req) then Some(SeatHeld)
    else if !env.saved then Some(NotSaved)
    else None
  }

  function CreateOutcome(s: State, now: int, env: Env, req: Request): Option<Error> {
    var early := EarlyError(s, req);
    if early.Some? then early else CommitError(s.locks, now, env, req)
  }

  function NewBooking(cfg: Config, half: nat, now: int, lag: nat, user: nat, req: Request): Booking {
    Booking(user, req.trip, req.fare, Requested(req.passengers), Total(half), Pending,
            now + lag + cfg.ttl, now + cfg.ttl, false, 0)
  }

  /** From the lock claim on, for a request priced at half half-paise. */
  function Commit(cfg: Config, s: State, now: int, env: Env, user: nat, req: Request, half: nat): State {
    var alive := Purge(s.locks, now);
    if CommitError(s.locks, now, env, req).Some? then s.(locks := alive)
    else s.(bookings := s.bookings + [NewBooking(cfg, half, now, env.lag, user, req)],
            locks := Claimed(alive, req.trip, Requested(req.passengers), user, now + cfg.ttl))
  }

  function Create(cfg: Config, s: State, now: int, env: Env, user: nat, req: Request): State {
    if EarlyError(s, req).Some? then s
    else Commit(cfg, s, now, env, user, req, HalfPrices(s.seats, s.fares[req.fare], req.passengers))
  }

  // ---- Confirmation ----------------------------------------------------------------------------------

  function SetAvailable(seats: seq<Seat>, ids: seq<nat>, available: bool): (r: seq<Seat>)
    ensures |r| == |seats|
    ensures forall i :: 0 <= i < |seats| ==> r[i] == if i in ids then seats[i].(available := available) else seats[i]
  {
    UpdateRows(seats, ids, (s: Seat) => s.(available := available))
  }

  function AddProfit(accounts: map<nat, Account>, trip: nat, amount: int): map<nat, Account> {
    if trip in accounts then accounts[trip := accounts[trip].(profit := accounts[trip].profit + amount)] else accounts
  }

  function ConfirmOutcome(s: State, now: int, id: nat, user: nat): Option<Error> {
    if id >= |s.bookings| || s.bookings[id].user != user then Some(BookingNotFound)
    else if s.bookings[id].status != Pending then Some(NotPending)
    else if now > s.bookings[id].expiresAt then Some(TimedOut)
    else None
  }

  function Confirm(s: State, now: int, id: nat, user: nat): State {
    match ConfirmOutcome(s, now, id, user)
    case Some(TimedOut) => s.(bookings := s.bookings[id := s.bookings[id].(status := Expired)])
    case Some(_) => s
    case None =>
      var b := s.bookings[id];
      s.(bookings := s.bookings[id := b.(status := Confirmed, wasConfirmed := true)],
         seats := SetAvailable(s.seats, b.seats, false),
         locks := ReleasedByOwner(s.locks, b.trip, b.seats, user, now),
         accounts := AddProfit(s.accounts, b.trip, b.total))
  }

  // ---- Cancellation ----------------------------------------------------------------------------------

  predicate Active(b: Booking) {
    b.status == Pending || b.status == Confirmed
  }

  /** caller is the requesting user, or None for the admin path, which skips the ownership check. */
  function CancelOutcome(s: State, now: int, id: nat, caller: Option<nat>): Option<Error> {
    if id >= |s.bookings| || (caller.Some? && s.bookings[id].user != caller.value) then Some(BookingNotFound)
    else
      var b := s.bookings[id];
      if !Active(b) then Some(NotCancellable)
      else if b.trip !in s.departures || b.fare >= |s.fares| then Some(BookingNotFound)
      else if Refunds.CeilHours(s.departures[b.trip] - now) <= 0 then Some(Departed)
      else None
  }

  function RefundFor(s: State, now: int, id: nat, policies: seq<Refunds.Policy>): nat
    requires id < |s.bookings| && s.bookings[id].trip in s.departures && s.bookings[id].fare < |s.fares|
  {
    var b := s.bookings[id];
    Refunds.BusRefund(b.total, b.status == Confirmed, s.fares[b.fare].refundable, policies,
                      Refunds.CeilHours(s.departures[b.trip] - now))
  }

  /** What an accepted cancellation writes. */
  function Undo(s: State, now: int, id: nat, refund: nat): State
    requires id < |s.bookings|
  {
    var b := s.bookings[id];
    s.(bookings := s.bookings[id := b.(status := Cancelled, refund := refund)],
       seats := SetAvailable(s.seats, b.seats, true),
       locks := ReleasedByOwner(s.locks, b.trip, b.seats, b.user, now),
       accounts := if b.status == Confirmed then AddProfit(s.accounts, b.trip, 0 - refund) else s.accounts)
  }

  function Cancel(s: State, now: int, id: nat, caller: Option<nat>, policies: seq<Refunds.Policy>): State {
    if CancelOutcome(s, now, id, caller).Some? then s else Undo(s, now, id, RefundFor(s, now, id, policies))
  }

  // ---- Background jobs -------------------------------------------------------------------------------

  function SweepRow(b: Booking, now: int): Booking {
    if b.status == Pending && b.expiresAt < now then b.(status := Expired) else b
  }

  function SweepRows(bookings: seq<Booking>, now: int): (r: seq<Booking>)
    ensures |r| == |bookings|
    ensures forall i :: 0 <= i < |bookings| ==> r[i] == SweepRow(bookings[i], now)
  {
    MapRows(bookings, (b: Booking) => SweepRow(b, now))
  }

  function Sweep(s: State, now: int): State {
    s.(bookings := SweepRows(s.bookings, now))
  }

  /** Departed today and not yet closed. */
  predicate Due(a: Account, now: int) {
    var startOfDay := now - now % DAY;
    !a.finalized && startOfDay <= a.departure < startOfDay + DAY && a.departure <= now
  }

  function Close(a: Account): Account {
    a.(loss := if a.spend - a.profit < 0 then 0 else a.spend - a.profit, finalized := true)
  }

  function CloseDue(accounts: map<nat, Account>, now: int): map<nat, Account> {
    map t | t in accounts :: if Due(accounts[t], now) then Close(accounts[t]) else accounts[t]
  }

  function Finalize(s: State, now: int): State {
    s.(accounts := CloseDue(s.accounts, now))
  }

  datatype Event =
    | Creating(now: int, env: Env, user: nat, req: Request)
    | Confirming(now: int, id: nat, user: nat)
    | Cancelling(now: int, id: nat, caller: Option<nat>, policies: seq<Refunds.Policy>)
    | Sweeping(now: int)
    | Finalizing(now: int)

  function Step(cfg: Config, s: State, e: Event): State {
    match e
    case Creating(now, env, user, req) => Create(cfg, s, now, env, user, req)
    case Confirming(now, id, user) => Confirm(s, now, id, user)
    case Cancelling(now, id, caller, policies) => Cancel(s, now, id, caller, policies)
    case Sweeping(now) => Sweep(s, now)
    case Finalizing(now) => Finalize(s, now)
  }

  // ---- The service -----------------------------------------------------------------------------------

  class BusService {
    const cfg: Config
    var fares: seq<Fare>
    var boarding: seq<Point>
    var dropping: seq<Point>
    var departures: map<nat, int>
    var seats: seq<Seat>
    var bookings: seq<Booking>
    var accounts: map<nat, Account>
    const rdb: Redis

    constructor (cfg: Config, rdb: Redis, s: State)
      requires s.locks == rdb.table
      ensures this.cfg == cfg && this.rdb == rdb && Tables() == s
    {
      this.cfg, this.rdb := cfg, rdb;
      fares, boarding, dropping, departures := s.fares, s.boarding, s.dropping, s.departures;
      seats, bookings, accounts := s.seats, s.bookings, s.accounts;
    }

    function Tables(): State
      reads this, rdb
    {
      State(fares, boarding, dropping, departures, seats, bookings, accounts, rdb.table)
    }

    method CreateBooking(now: int, env: Env, user: nat, req: Request) returns (r: Option<Error>)
      modifies this, rdb
      ensures r == CreateOutcome(old(Tables()), now, env, req)
      ensures Tables() == Create(cfg, old(Tables()), now, env, user, req)
    {
      r := CheckRequest(req);
      if r.Some? {
        return;
      }
      var half, ids, n;
      r, half, ids, n := QuotePassengers(fares[req.fare], req.trip, req.passengers);
      if r.Some? {
        return;
      }
      r := LockAndBook(now, env, user, req, half, ids, n);
    }

    method LockAndBook(now: int, env: Env, user: nat, req: Request, half: nat, ids: array<nat>, n: nat)
      returns (r: Option<Error>)
      requires n <= ids.Length && ids[..n] == Requested(req.passengers)
      modifies this, rdb, ids
      ensures r == CommitError(old(rdb.table), now, env, req)
      ensures Tables() == Commit(cfg, old(Tables()), now, env, user, req, half)
    {
      r := ClaimSeats(now, env, user, req, ids, n);
      if r.None? {
        AddRow(NewBooking(cfg, half, now, env.lag, user, req));
      }
    }

    /** Dedup, claim and, when the database refuses the row, give the locks back. */
    method ClaimSeats(now: int, env: Env, user: nat, req: Request, ids: array<nat>, n: nat) returns (r: Option<Error>)
      requires n <= ids.Length && ids[..n] == Requested(req.passengers)
      modifies rdb, ids
      ensures r == CommitError(old(rdb.table), now, env, req)
      ensures var alive := Purge(old(rdb.table), now);
              rdb.table == if r.Some? then alive
                           else Claimed(alive, req.trip, Requested(req.passengers), user, now + cfg.ttl)
    {
      var held := DedupAndSave(rdb, req.trip, ids, n, user, cfg.ttl, now, env);
      r := if !held then Some(SeatHeld) else if !env.saved then Some(NotSaved) else None;
    }

    method AddRow(b: Booking)
      modifies this
      ensures Tables() == old(Tables()).(bookings := old(bookings) + [b])
    {
      bookings := bookings + [b];
    }

    method CheckRequest(req: Request) returns (r: Option<Error>)
      ensures r.Some? ==> r == EarlyError(Tables(), req)
      ensures r.None? ==> req.fare < |fares|
                          && EarlyError(Tables(), req) == FirstError(seats, fares[req.fare], req.trip, req.passengers)
    {
      if req.passengers == [] {
        return Some(NoPassengers);
      }
      if req.fare >= |fares| {
        return Some(FareNotFound);
      }
      if fares[req.fare].trip != req.trip {
        return Some(FareOfOtherBus);
      }
      if req.boarding >= |boarding| || req.dropping >= |dropping| {
        return Some(PointNotFound);
      }
      if boarding[req.boarding].trip != req.trip || dropping[req.dropping].trip != req.trip {
        return Some(PointOfOtherBus);
      }
      if boarding[req.boarding].sequence >= dropping[req.dropping].sequence {
        return Some(WrongDirection);
      }
      return None;
    }

    /** The passenger loop: stops at the first bad passenger, otherwise adds up prices and collects seats. */
    method QuotePassengers(fare: Fare, trip: nat, ps: seq<Passenger>)
      returns (error: Option<Error>, half: nat, ids: array<nat>, n: nat)
      ensures fresh(ids) && n <= ids.Length
      ensures error == FirstError(seats, fare, trip, ps)
      ensures error.None? ==> half == HalfPrices(seats, fare, ps) && ids[..n] == Requested(ps)
    {
      error, half, n := None, 0, 0;
      ids := new nat[|ps|](_ => 0);
      for i := 0 to |ps|
        invariant n <= i && error == None
        invariant FirstError(seats, fare, trip, ps[..i]) == None
        invariant half == HalfPrices(seats, fare, ps[..i]) && ids[..n] == Requested(ps[..i])
      {
        var p := ps[i];
        QuoteOneMore(seats, fare, trip, ps, i);
        error := PassengerError(seats, fare, trip, p);
        if error.Some? {
          FirstErrorStays(seats, fare, trip, ps, i + 1);
          return;
        }
        half := half + HalfPrice(seats, fare, p);
        if p.seat.Some? {
          ids[n] := p.seat.value;
          n := n + 1;
        }
      }
      assert ps[..|ps|] == ps;
    }

    method ConfirmBooking(now: int, id: nat, user: nat) returns (r: Option<Error>)
      modifies this, rdb
      ensures r == ConfirmOutcome(old(Tables()), now, id, user)
      ensures Tables() == Confirm(old(Tables()), now, id, user)
    {
      if id >= |bookings| || bookings[id].user != user {
        return Some(BookingNotFound);
      }
      var b := bookings[id];
      if b.status != Pending {
        return Some(NotPending);
      }
      if now > b.expiresAt {
        bookings := bookings[id := b.(status := Expired)];
        return Some(TimedOut);
      }
      bookings := bookings[id := b.(status := Confirmed, wasConfirmed := true)];
      seats := SetAvailable(seats, b.seats, false);
      rdb.UnlockSeatsByOwner(b.trip, b.seats, user, now);
      accounts := AddProfit(accounts, b.trip, b.total);
      return None;
    }

    /** The payment.completed consumer: skip settled bookings, otherwise confirm. */
    method ProcessPaymentEvent(now: int, id: nat, user: nat)
      modifies this, rdb
      ensures Tables() == Confirm(old(Tables()), now, id, user)
    {
      if id >= |bookings| || bookings[id].user != user || bookings[id].status != Pending {
        return;
      }
      var _ := ConfirmBooking(now, id, user);
    }

    method CheckCancellation(now: int, id: nat, caller: Option<nat>) returns (r: Option<Error>)
      ensures r == CancelOutcome(Tables(), now, id, caller)
    {
      if id >= |bookings| || (caller.Some? && bookings[id].user != caller.value) {
        return Some(BookingNotFound);
      }
      var b := bookings[id];
      if b.status != Confirmed && b.status != Pending {
        return Some(NotCancellable);
      }
      if b.trip !in departures || b.fare >= |fares| {
        return Some(BookingNotFound);
      }
      if Refunds.CeilHours(departures[b.trip] - now) <= 0 {
        return Some(Departed);
      }
      return None;
    }

    method QuoteRefund(now: int, id: nat, policies: seq<Refunds.Policy>) returns (refund: nat)
      requires id < |bookings| && bookings[id].trip in departures && bookings[id].fare < |fares|
      ensures refund == RefundFor(Tables(), now, id, policies)
    {
      var b := bookings[id];
      refund := Refunds.ComputeBusRefund(b.total, b.status == Confirmed, fares[b.fare].refundable, policies,
                                         Refunds.CeilHours(departures[b.trip] - now));
    }

    method ReleaseAndRefund(now: int, id: nat, owner: nat, refund: nat)
      requires id < |bookings| && owner == bookings[id].user
      modifies this, rdb
      ensures Tables() == Undo(old(Tables()), now, id, refund)
    {
      var b := bookings[id];
      FreeSeats(b, owner, now);
      TakeBackProfit(b, refund);
      bookings := bookings[id := b.(status := Cancelled, refund := refund)];
    }

    method FreeSeats(b: Booking, owner: nat, now: int)
      modifies this`seats, rdb
      ensures Tables() == old(Tables()).(seats := SetAvailable(old(seats), b.seats, true),
                                         locks := ReleasedByOwner(old(rdb.table), b.trip, b.seats, owner, now))
    {
      seats := SetAvailable(seats, b.seats, true);
      rdb.UnlockSeatsByOwner(b.trip, b.seats, owner, now);
    }

    method TakeBackProfit(b: Booking, refund: nat)
      modifies this`accounts
      ensures accounts == if b.status == Confirmed then AddProfit(old(accounts), b.trip, 0 - refund) else old(accounts)
    {
      if b.status == Confirmed {
        if refund > 0 {
          accounts := AddProfit(accounts, b.trip, 0 - refund);
        } else {
          NothingSubtracted(accounts, b.trip);
        }
      }
    }

    /** The user's path. */
    method CancelBooking(now: int, id: nat, user: nat, policies: seq<Refunds.Policy>) returns (r: Option<Error>)
      modifies this, rdb
      ensures r == CancelOutcome(old(Tables()), now, id, Some(user))
      ensures Tables() == Cancel(old(Tables()), now, id, Some(user), policies)
    {
      r := CheckCancellation(now, id, Some(user));
      if r.None? {
        var refund := QuoteRefund(now, id, policies);
        ReleaseAndRefund(now, id, user, refund);
      }
    }

    /** The admin's path: same rules, locks released in the name of the booking's user. */
    method CancelBookingByAdmin(now: int, id: nat, policies: seq<Refunds.Policy>) returns (r: Option<Error>)
      modifies this, rdb
      ensures r == CancelOutcome(old(Tables()), now, id, None)
      ensures Tables() == Cancel(old(Tables()), now, id, None, policies)
    {
      r := CheckCancellation(now, id, None);
      if r.None? {
        var refund := QuoteRefund(now, id, policies);
        ReleaseAndRefund(now, id, bookings[id].user, refund);
      }
    }

    method CleanupExpiredBookings(now: int)
      modifies this
      ensures Tables() == Sweep(old(Tables()), now)
    {
      for i := 0 to |bookings|
        invariant |bookings| == |old(bookings)|
        invariant Tables() == old(Tables()).(bookings := bookings)
        invariant forall j :: 0 <= j < |bookings| ==>
                    bookings[j] == if j < i then SweepRow(old(bookings)[j], now) else old(bookings)[j]
      {
        if bookings[i].status == Pending && bookings[i].expiresAt < now {
          bookings := bookings[i := bookings[i].(status := Expired)];
        }
      }
    }

    method FinalizePrebookingAccounting(now: int)
      modifies this
      ensures Tables() == Finalize(old(Tables()), now)
    {
      var due := set t | t in accounts && Due(accounts[t], now);
      ghost var done: set<nat> := {};
      while due != {}
        invariant accounts.Keys == old(accounts).Keys
        invariant Tables() == old(Tables()).(accounts := accounts)
        invariant due !! done && due + done == set t | t in old(accounts) && Due(old(accounts)[t], now)
        invariant forall t :: t in accounts ==>
                    accounts[t] == if t in done then Close(old(accounts)[t]) else old(accounts)[t]
        decreases due
      {
        var t :| t in due;
        due := due - {t};
        done := done + {t};
        var loss := accounts[t].spend - accounts[t].profit;
        if loss < 0 {
          loss := 0;
        }
        accounts := accounts[t := accounts[t].(loss := loss, finalized := true)];
      }
    }
  }

  /** What one more passenger adds to the error, the price and the seats. */
  lemma QuoteOneMore(seats: seq<Seat>, fare: Fare, trip: nat, ps: seq<Passenger>, i: nat)
    requires i < |ps| && FirstError(seats, fare, trip, ps[..i]).None?
    ensures FirstError(seats, fare, trip, ps[..i + 1]) == PassengerError(seats, fare, trip, ps[i])
    ensures HalfPrices(seats, fare, ps[..i + 1]) == HalfPrices(seats, fare, ps[..i]) + HalfPrice(seats, fare, ps[i])
    ensures Requested(ps[..i + 1])
         == Requested(ps[..i]) + if ps[i].seat.Some? then [ps[i].seat.value] else []
  {
    assert ps[..i + 1][..i] == ps[..i];
  }

  lemma NothingSubtracted(accounts: map<nat, Account>, trip: nat)
    ensures AddProfit(accounts, trip, 0) == accounts
  {
  }

  lemma {:induction false} FirstErrorStays(seats: seq<Seat>, fare: Fare, trip: nat, ps: seq<Passenger>, n: nat)
    requires n <= |ps| && FirstError(seats, fare, trip, ps[..n]).Some?
    ensures FirstError(seats, fare, trip, ps) == FirstError(seats, fare, trip, ps[..n])
    decreases |ps| - n
  {
    if n == |ps| {
      assert ps[..n] == ps;
    } else {
      assert ps[..n + 1][..n] == ps[..n];
      FirstErrorStays(seats, fare, trip, ps, n + 1);
    }
  }
}
