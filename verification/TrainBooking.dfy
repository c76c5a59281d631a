/** The train booking tables and what each request, payment event and expiry pass does to them. */
module TrainBooking {
  import opened Collections
  import opened SeatLocks
  import opened TrainInventory
  import Refunds

  const LOCK_TTL: nat := 600_000
  const PAYMENT_WINDOW: nat := 900_000

  datatype Status = Pending | Confirmed | Cancelled | Failed | Expired

  datatype Booking = Booking(user: nat, schedule: nat, travelClass: string, seats: seq<nat>, total: nat,
                             status: Status, expiresAt: int)

  datatype Stop = Stop(station: string, sequence: int)

  datatype Schedule = Schedule(stops: seq<Stop>, departureAt: int)

  /** Rows are numbered as they are inserted; a booking or berth is named by its number. */
  datatype State = State(
    schedules: map<nat, Schedule>,
    berths: seq<Berth>,
    available: map<(nat, string), int>,
    bookings: seq<Booking>,
    refunds: map<nat, nat>,
    locks: Table)

  datatype Request = Request(schedule: nat, from: string, to: string, travelClass: string, seats: seq<nat>,
                             validBirthDates: seq<bool>)

  datatype Error = ScheduleNotFound | BadRoute | NoSeats | SeatBooked | WrongClass | SeatLocked | TransactionFailed
                 | BookingNotFound | Unauthorized | CannotCancel | RefundNotEligible

  predicate Active(b: Booking) {
    b.status == Pending || b.status == Confirmed
  }

  /** The booking loop keeps the last stop that matches. */
  function LastStop(stops: seq<Stop>, station: string): Option<Stop> {
    if stops == [] then None
    else if stops[|stops| - 1].station == station then Some(stops[|stops| - 1])
    else LastStop(stops[..|stops| - 1], station)
  }

  predicate RouteOk(sch: Schedule, from: string, to: string) {
    var f, t := LastStop(sch.stops, from), LastStop(sch.stops, to);
    f.Some? && t.Some? && f.value.sequence < t.value.sequence
  }

  /** WHERE id IN ids: the named rows take the new status, all others stay. */
  function SetStatus(berths: seq<Berth>, ids: seq<nat>, status: SeatStatus): (r: seq<Berth>)
    ensures |r| == |berths|
    ensures forall i :: 0 <= i < |berths| ==> r[i] == if i in ids then berths[i].(status := status) else berths[i]
  {
    UpdateRows(berths, ids, (b: Berth) => b.(status := status))
  }

  /** UPDATE of one availability column of one schedule row; an unknown class or row changes nothing. */
  function AddAvailable(available: map<(nat, string), int>, schedule: nat, travelClass: string, n: int)
    : map<(nat, string), int>
  {
    if travelClass in CLASSES && (schedule, travelClass) in available
    then available[(schedule, travelClass) := available[(schedule, travelClass)] + n]
    else available
  }

  /** Every listed row exists. */
  predicate Known(ids: seq<nat>, rows: nat) {
    forall i :: 0 <= i < |ids| ==> ids[i] < rows
  }

  /** The rows GetSeatsByIDs returns: as many as asked for only if no id is repeated or unknown. */
  function FoundSeats(berths: seq<Berth>, ids: seq<nat>): set<nat> {
    set k | k in ids && k < |berths|
  }

  function SeatError(berths: seq<Berth>, ids: seq<nat>, travelClass: string): Option<Error>
    requires Known(ids, |berths|)
  {
    if ids == [] then None
    else
      var earlier := SeatError(berths, ids[..|ids| - 1], travelClass);
      var b := berths[ids[|ids| - 1]];
      if earlier.Some? then earlier
      else if b.status != Available then Some(SeatBooked)
      else if b.travelClass != travelClass then Some(WrongClass)
      else None
  }

  function Fare(berths: seq<Berth>, ids: seq<nat>): nat
    requires Known(ids, |berths|)
  {
    if ids == [] then 0 else Fare(berths, ids[..|ids| - 1]) + berths[ids[|ids| - 1]].price
  }

  /** Fare plus the 2% service fee, rounded to the paisa. */
  function Total(berths: seq<Berth>, ids: seq<nat>): nat
    requires Known(ids, |berths|)
  {
    var fare := Fare(berths, ids);
    fare + RoundDiv(2 * fare, 100)
  }

  /** What stops the request before any seat is locked. */
  function EarlyError(s: State, req: Request): Option<Error> {
    if req.schedule !in s.schedules then Some(ScheduleNotFound)
    else if !RouteOk(s.schedules[req.schedule], req.from, req.to) then Some(BadRoute)
    else if |FoundSeats(s.berths, req.seats)| != |req.seats| then Some(NoSeats)
    else
      FoundAll(s.berths, req.seats);
      SeatError(s.berths, req.seats, req.travelClass)
  }

  lemma {:induction false} FoundAll(berths: seq<Berth>, ids: seq<nat>)
    ensures |FoundSeats(berths, ids)| <= |ids|
    ensures |FoundSeats(berths, ids)| == |ids| <==> NoDup(ids) && Known(ids, |berths|)
    decreases |ids|
  {
    if ids == [] {
      assert FoundSeats(berths, ids) == {};
    } else {
      var init, last := ids[..|ids| - 1], ids[|ids| - 1];
      assert ids == init + [last];
      FoundAll(berths, init);
      if last < |berths| {
        assert FoundSeats(berths, ids) == FoundSeats(berths, init) + {last};
        assert last in init <==> last in FoundSeats(berths, init);
      } else {
        assert FoundSeats(berths, ids) == FoundSeats(berths, init);
      }
    }
  }

  /** The statements after the claim that can fail of themselves: counter column, empty inserts, birth dates. */
  predicate TransactionOk(req: Request) {
    req.travelClass in CLASSES && req.seats != [] && req.validBirthDates != [] && false !in req.validBirthDates
  }

  /** From the lock claim on. A claim Redis answers with an error is refused like one of a locked seat; an
      unsaved request is one whose booking number or transaction fails from outside. */
  function CommitError(locks: Table, now: int, env: Env, req: Request): Option<Error> {
    if !Grantable(locks, req.schedule, req.seats, now) || !Answers(env.faultAt, |req.seats|) then Some(SeatLocked)
    else if !TransactionOk(req) || !env.saved then Some(TransactionFailed)
    else None
  }

  function CreateOutcome(s: State, now: int, env: Env, req: Request): Option<Error> {
    var early := EarlyError(s, req);
    if early.Some? then early else CommitError(s.locks, now, env, req)
  }

  function NewBooking(berths: seq<Berth>, now: int, lag: nat, user: nat, req: Request): Booking
    requires Known(req.seats, |berths|)
  {
    Booking(user, req.schedule, req.travelClass, req.seats, Total(berths, req.seats), Pending,
            now + lag + PAYMENT_WINDOW)
  }

  /** The rows the creation transaction writes. */
  function Book(s: State, b: Booking): State {
    s.(bookings := s.bookings + [b],
       berths := SetStatus(s.berths, b.seats, PendingPayment),
       available := AddAvailable(s.available, b.schedule, b.travelClass, -|b.seats|))
  }

  /** From the lock claim on: a refused claim or a failed transaction leaves only dead locks dropped. */
  function Commit(s: State, now: int, env: Env, user: nat, req: Request): State
    requires Known(req.seats, |s.berths|)
  {
    var alive := Purge(s.locks, now);
    if CommitError(s.locks, now, env, req).Some? then s.(locks := alive)
    else Book(s.(locks := Claimed(alive, req.schedule, req.seats, user, now + LOCK_TTL)),
              NewBooking(s.berths, now, env.lag, user, req))
  }

  function Create(s: State, now: int, env: Env, user: nat, req: Request): State {
    if EarlyError(s, req).Some? then s
    else
      FoundAll(s.berths, req.seats);
      Commit(s, now, env, user, req)
  }

  /** payment.completed */
  function Complete(s: State, id: nat): State {
    if id >= |s.bookings| || s.bookings[id].status != Pending then s
    else
      var b := s.bookings[id];
      s.(bookings := s.bookings[id := b.(status := Confirmed)],
         berths := SetStatus(s.berths, b.seats, Booked),
         locks := s.locks - KeysOf(b.schedule, b.seats))
  }

  /** The transaction that gives a booking's seats back, shared by failure, cancellation and expiry. */
  function Release(s: State, id: nat, status: Status): State
    requires id < |s.bookings|
  {
    var b := s.bookings[id];
    s.(bookings := s.bookings[id := b.(status := status)],
       berths := SetStatus(s.berths, b.seats, Available),
       available := AddAvailable(s.available, b.schedule, b.travelClass, |b.seats|),
       locks := s.locks - KeysOf(b.schedule, b.seats))
  }

  /** payment.failed: no status guard. */
  function Fail(s: State, id: nat): State {
    if id < |s.bookings| then Release(s, id, Failed) else s
  }

  function PolicyFor(s: State, now: int, b: Booking, policies: seq<Refunds.Policy>): Option<Refunds.Policy>
    requires b.schedule in s.schedules
  {
    Refunds.ActivePolicy(policies, Refunds.TruncHours(s.schedules[b.schedule].departureAt - now))
  }

  function CancelOutcome(s: State, now: int, id: nat, user: nat, policies: seq<Refunds.Policy>): Option<Error> {
    if id >= |s.bookings| then Some(BookingNotFound)
    else
      var b := s.bookings[id];
      if b.user != user then Some(Unauthorized)
      else if !Active(b) then Some(CannotCancel)
      else if b.schedule !in s.schedules then Some(BookingNotFound)
      else if PolicyFor(s, now, b, policies).None? then Some(RefundNotEligible)
      else None
  }

  function Cancel(s: State, now: int, id: nat, user: nat, policies: seq<Refunds.Policy>): State {
    if CancelOutcome(s, now, id, user, policies).Some? then s
    else
      var b := s.bookings[id];
      var p := PolicyFor(s, now, b, policies).value;
      Release(s, id, Cancelled).(refunds := s.refunds[id := Refunds.Percentage(b.total, p.percent)])
  }

  /** The pending rows past their payment window, among the first n. */
  function Overdue(bookings: seq<Booking>, now: int, n: nat): seq<nat>
    requires n <= |bookings|
  {
    if n == 0 then []
    else Overdue(bookings, now, n - 1)
         + if bookings[n - 1].status == Pending && bookings[n - 1].expiresAt < now then [n - 1] else []
  }

  /** One iteration of the expiry pass: the row was listed earlier and is not looked at again. */
  function Expire(s: State, id: nat): State {
    if id < |s.bookings| then Release(s, id, Expired) else s
  }

  function ExpireAll(s: State, ids: seq<nat>): State
    decreases |ids|
  {
    if ids == [] then s else Expire(ExpireAll(s, ids[..|ids| - 1]), ids[|ids| - 1])
  }

  function ExpiryPass(s: State, now: int): State {
    ExpireAll(s, Overdue(s.bookings, now, |s.bookings|))
  }

  function Generate(s: State, id: nat, sch: Schedule): State {
    if id in s.schedules then s
    else s.(schedules := s.schedules[id := sch],
            berths := s.berths + Generated(id, DefaultConfig()),
            available := s.available + map c | c in CLASSES :: (id, c) := Capacity(DefaultConfig(), c))
  }

  datatype Event =
    | Generating(id: nat, sch: Schedule)
    | Creating(now: int, env: Env, user: nat, req: Request)
    | Completing(id: nat)
    | Failing(id: nat)
    | Cancelling(now: int, id: nat, user: nat, policies: seq<Refunds.Policy>)
    | Expiring(now: int)
    | ExpiringListed(id: nat)

  function Step(s: State, e: Event): State {
    match e
    case Generating(id, sch) => Generate(s, id, sch)
    case Creating(now, env, user, req) => Create(s, now, env, user, req)
    case Completing(id) => Complete(s, id)
    case Failing(id) => Fail(s, id)
    case Cancelling(now, id, user, policies) => Cancel(s, now, id, user, policies)
    case Expiring(now) => ExpiryPass(s, now)
    case ExpiringListed(id) => Expire(s, id)
  }

  /** The service object: the tables it writes and the Redis client it shares. */
  class TrainService {
    var schedules: map<nat, Schedule>
    var berths: seq<Berth>
    var available: map<(nat, string), int>
    var bookings: seq<Booking>
    var refunds: map<nat, nat>
    const rdb: Redis

    constructor (rdb: Redis)
      ensures this.rdb == rdb
      ensures Tables() == State(map[], [], map[], [], map[], rdb.table)
    {
      schedules, berths, available, bookings, refunds := map[], [], map[], [], map[];
      this.rdb := rdb;
    }

    function Tables(): State
      reads this, rdb
    {
      State(schedules, berths, available, bookings, refunds, rdb.table)
    }

    method GenerateSchedule(id: nat, sch: Schedule)
      modifies this
      ensures Tables() == Generate(old(Tables()), id, sch)
    {
      if id in schedules {
        return;
      }
      var all := GenerateBerths(id, DefaultConfig());
      schedules := schedules[id := sch];
      available := available + map c | c in CLASSES :: (id, c) := Capacity(DefaultConfig(), c);
      berths := berths + all;
    }

    method CreateBooking(now: int, env: Env, user: nat, req: Request) returns (r: Option<Error>)
      modifies this, rdb
      ensures r == CreateOutcome(old(Tables()), now, env, req)
      ensures Tables() == Create(old(Tables()), now, env, user, req)
    {
      r := Validate(req);
      if r.None? {
        FoundAll(berths, req.seats);
        r := LockAndBook(now, env, user, req);
      }
    }

    method LockAndBook(now: int, env: Env, user: nat, req: Request) returns (r: Option<Error>)
      requires Known(req.seats, |berths|)
      modifies this, rdb
      ensures r == CommitError(old(rdb.table), now, env, req)
      ensures Tables() == Commit(old(Tables()), now, env, user, req)
    {
      r := ClaimSeats(now, env, user, req);
      if r.None? {
        var b := NewRow(now, env.lag, user, req);
        AddRow(b);
      }
    }

    /** Claim, and give the locks back when what follows cannot succeed. */
    method ClaimSeats(now: int, env: Env, user: nat, req: Request) returns (r: Option<Error>)
      modifies rdb
      ensures r == CommitError(old(rdb.table), now, env, req)
      ensures var alive := Purge(old(rdb.table), now);
              rdb.table == if r.Some? then alive else Claimed(alive, req.schedule, req.seats, user, now + LOCK_TTL)
    {
      var locked := LockTrainSeats(rdb, req.schedule, req.seats, user, LOCK_TTL, now, env.faultAt);
      if !locked.Locked? {
        return Some(SeatLocked);
      }
      if !TransactionOk(req) || !env.saved {
        ClaimThenRelease(old(rdb.table), req.schedule, req.seats, user, now + LOCK_TTL, now);
        rdb.UnlockSeats(req.schedule, req.seats);
        return Some(TransactionFailed);
      }
      return None;
    }

    method NewRow(now: int, lag: nat, user: nat, req: Request) returns (b: Booking)
      requires Known(req.seats, |berths|)
      ensures b == NewBooking(berths, now, lag, user, req)
    {
      var fare := SumFares(req.seats);
      var total := fare + RoundDiv(2 * fare, 100);
      b := Booking(user, req.schedule, req.travelClass, req.seats, total, Pending, now + lag + PAYMENT_WINDOW);
    }

    method AddRow(b: Booking)
      modifies this
      ensures Tables() == Book(old(Tables()), b)
    {
      bookings := bookings + [b];
      berths := SetStatus(berths, b.seats, PendingPayment);
      available := AddAvailable(available, b.schedule, b.travelClass, -|b.seats|);
    }

    method Validate(req: Request) returns (r: Option<Error>)
      ensures r == EarlyError(Tables(), req)
    {
      if req.schedule !in schedules {
        return Some(ScheduleNotFound);
      }
      if !RouteOk(schedules[req.schedule], req.from, req.to) {
        return Some(BadRoute);
      }
      FoundAll(berths, req.seats);
      if |FoundSeats(berths, req.seats)| != |req.seats| {
        return Some(NoSeats);
      }
      r := CheckSeats(req.seats, req.travelClass);
    }

    method CheckSeats(ids: seq<nat>, travelClass: string) returns (error: Option<Error>)
      requires Known(ids, |berths|)
      ensures error == SeatError(berths, ids, travelClass)
    {
      for i := 0 to |ids|
        invariant SeatError(berths, ids[..i], travelClass) == None
      {
        assert ids[..i + 1][..i] == ids[..i];
        var b := berths[ids[i]];
        if b.status != Available {
          FirstErrorStays(berths, ids, i + 1, travelClass);
          return Some(SeatBooked);
        }
        if b.travelClass != travelClass {
          FirstErrorStays(berths, ids, i + 1, travelClass);
          return Some(WrongClass);
        }
      }
      assert ids[..|ids|] == ids;
      return None;
    }

    method SumFares(ids: seq<nat>) returns (fare: nat)
      requires Known(ids, |berths|)
      ensures fare == Fare(berths, ids)
    {
      fare := 0;
      for i := 0 to |ids|
        invariant fare == Fare(berths, ids[..i])
      {
        assert ids[..i + 1][..i] == ids[..i];
        fare := fare + berths[ids[i]].price;
      }
      assert ids[..|ids|] == ids;
    }

    method HandlePaymentCompleted(id: nat)
      modifies this, rdb
      ensures Tables() == Complete(old(Tables()), id)
    {
      if id >= |bookings| || bookings[id].status != Pending {
        return;
      }
      var b := bookings[id];
      bookings := bookings[id := b.(status := Confirmed)];
      berths := SetStatus(berths, b.seats, Booked);
      UnlockAll(b);
    }

    method UnlockAll(b: Booking)
      modifies rdb
      ensures rdb.table == old(rdb.table) - KeysOf(b.schedule, b.seats)
    {
      rdb.UnlockSeats(b.schedule, b.seats);
    }

    method HandlePaymentFailed(id: nat)
      modifies this, rdb
      ensures Tables() == Fail(old(Tables()), id)
    {
      if id >= |bookings| {
        return;
      }
      GiveBack(id, Failed);
    }

    method GiveBack(id: nat, status: Status)
      requires id < |bookings|
      modifies this, rdb
      ensures Tables() == Release(old(Tables()), id, status)
    {
      var b := bookings[id];
      bookings := bookings[id := b.(status := status)];
      berths := SetStatus(berths, b.seats, Available);
      available := AddAvailable(available, b.schedule, b.travelClass, |b.seats|);
      UnlockAll(b);
    }

    method CancelBookingByUser(now: int, id: nat, user: nat, policies: seq<Refunds.Policy>) returns (r: Option<Error>)
      modifies this, rdb
      ensures r == CancelOutcome(old(Tables()), now, id, user, policies)
      ensures Tables() == Cancel(old(Tables()), now, id, user, policies)
    {
      var policy;
      r, policy := CheckCancellation(now, id, user, policies);
      if r.None? {
        var refund := Refunds.Percentage(bookings[id].total, policy.percent);
        GiveBack(id, Cancelled);
        refunds := refunds[id := refund];
      }
    }

    method CheckCancellation(now: int, id: nat, user: nat, policies: seq<Refunds.Policy>)
      returns (r: Option<Error>, policy: Refunds.Policy)
      ensures r == CancelOutcome(Tables(), now, id, user, policies)
      ensures r.None? ==> PolicyFor(Tables(), now, bookings[id], policies) == Some(policy)
    {
      policy := Refunds.Policy(0, 0, 0, true);
      if id >= |bookings| {
        return Some(BookingNotFound), policy;
      }
      var b := bookings[id];
      if b.user != user {
        return Some(Unauthorized), policy;
      }
      if b.status != Pending && b.status != Confirmed {
        return Some(CannotCancel), policy;
      }
      if b.schedule !in schedules {
        return Some(BookingNotFound), policy;
      }
      var hoursLeft := Refunds.TruncHours(schedules[b.schedule].departureAt - now);
      var found := Refunds.ActivePolicy(policies, hoursLeft);
      if found.None? {
        return Some(RefundNotEligible), policy;
      }
      return None, found.value;
    }

    method RunExpiryPass(now: int)
      modifies this, rdb
      ensures Tables() == ExpiryPass(old(Tables()), now)
    {
      var overdue := GetExpiredPendingBookings(now);
      for i := 0 to |overdue|
        invariant Tables() == ExpireAll(old(Tables()), overdue[..i])
        invariant |bookings| == |old(bookings)|
      {
        ExpireAllSnoc(old(Tables()), overdue, i);
        ExpireListed(overdue[i]);
      }
      assert overdue[..|overdue|] == overdue;
    }

    method GetExpiredPendingBookings(now: int) returns (overdue: seq<nat>)
      ensures overdue == Overdue(bookings, now, |bookings|) && Known(overdue, |bookings|)
    {
      overdue := [];
      for n := 0 to |bookings|
        invariant overdue == Overdue(bookings, now, n) && Known(overdue, |bookings|)
      {
        if bookings[n].status == Pending && bookings[n].expiresAt < now {
          overdue := overdue + [n];
        }
      }
    }

    /** One booking of the pass: a booking without seats only changes its status. */
    method ExpireListed(id: nat)
      requires id < |bookings|
      modifies this, rdb
      ensures Tables() == Expire(old(Tables()), id)
    {
      var b := bookings[id];
      bookings := bookings[id := b.(status := Expired)];
      if |b.seats| > 0 {
        berths := SetStatus(berths, b.seats, Available);
        available := AddAvailable(available, b.schedule, b.travelClass, |b.seats|);
        rdb.UnlockSeats(b.schedule, b.seats);
      } else {
        NoSeatsNoChange(berths, available, b, rdb.table);
      }
    }
  }

  lemma ExpireAllSnoc(s: State, ids: seq<nat>, i: nat)
    requires i < |ids|
    ensures ExpireAll(s, ids[..i + 1]) == Expire(ExpireAll(s, ids[..i]), ids[i])
  {
    assert ids[..i + 1][..i] == ids[..i];
  }

  lemma NoSeatsNoChange(berths: seq<Berth>, available: map<(nat, string), int>, b: Booking, t: Table)
    requires b.seats == []
    ensures SetStatus(berths, b.seats, Available) == berths
    ensures AddAvailable(available, b.schedule, b.travelClass, |b.seats|) == available
    ensures t - KeysOf(b.schedule, b.seats) == t
  {
  }

  lemma {:induction false} FirstErrorStays(berths: seq<Berth>, ids: seq<nat>, n: nat, travelClass: string)
    requires n <= |ids| && Known(ids, |berths|)
    requires SeatError(berths, ids[..n], travelClass).Some?
    ensures SeatError(berths, ids, travelClass) == SeatError(berths, ids[..n], travelClass)
    decreases |ids| - n
  {
    if n == |ids| {
      assert ids[..n] == ids;
    } else {
      assert ids[..n + 1][..n] == ids[..n];
      FirstErrorStays(berths, ids, n + 1, travelClass);
    }
  }

  lemma {:induction false} NoSeatError(berths: seq<Berth>, ids: seq<nat>, travelClass: string)
    requires Known(ids, |berths|)
    ensures SeatError(berths, ids, travelClass).None?
            <==> forall k :: k in ids ==> berths[k].status == Available && berths[k].travelClass == travelClass
    decreases |ids|
  {
    if ids != [] {
      assert ids == ids[..|ids| - 1] + [ids[|ids| - 1]];
      NoSeatError(berths, ids[..|ids| - 1], travelClass);
    }
  }
}
