/** Seat exclusivity of the flight machine. Payments are not checked against the booking's window: exactly when
    confirming keeps each seat with one holder, and runs that double book without it. */
module FlightExclusivity {
  import opened Collections
  import opened Runs
  import opened SeatLocks
  import opened SeatClaims
  import opened FlightBooking

  // ---- The tables as a board -------------------------------------------------------------------------

  function SeatsOf(b: Booking): seq<nat> {
    Requested(b.passengers)
  }

  function PhaseOf(status: Status): Phase {
    match status
    case Pending => Held
    case Confirmed => Taken
    case _ => Over
  }

  /** Flight locks name the seat alone, so all seats are of one trip. */
  function ClaimOf(b: Booking): Claim {
    Claim(b.user, 0, SeatsOf(b), PhaseOf(b.status), b.lockedUntil, b.expiresAt)
  }

  function PlaceOf(s: Seat): Place {
    Place(0, s.available)
  }

  function BoardOf(s: State): Board {
    Board(MapRows(s.bookings, ClaimOf), MapRows(s.seats, PlaceOf), s.locks)
  }

  ghost predicate SafeAt(s: State, now: int) {
    Safe(BoardOf(s), now)
  }

  ghost predicate BackedAt(s: State, now: int, gap: nat) {
    Backed(BoardOf(s), now, gap)
  }

  lemma PlacesFollow(seats: seq<Seat>, ids: seq<nat>, available: bool)
    ensures MapRows(SetAvailable(seats, ids, available), PlaceOf) == SetOpen(MapRows(seats, PlaceOf), ids, available)
  {
  }

  /** Flight releases delete the locks of the seats, whoever holds them. */
  lemma FlightReleases(locks: Table, b: Booking, now: int)
    ensures Releases(locks, locks - KeysOf(0, SeatsOf(b)), ClaimOf(b), now)
  {
    assert forall k :: k in SeatsOf(b) ==> Key(0, k) in KeysOf(0, SeatsOf(b));
  }

  // ---- Creation --------------------------------------------------------------------------------------

  lemma {:induction false} StoredSeats(ps: seq<Passenger>)
    ensures Requested(StoredAll(ps)) == Requested(ps)
    decreases |ps|
  {
    if ps != [] {
      var n := |ps| - 1;
      assert StoredAll(ps)[..n] == StoredAll(ps[..n]);
      StoredSeats(ps[..n]);
    }
  }

  /** An accepted request opens a claim, a refused one drops dead locks at most. */
  lemma CreateOpens(s: State, now: int, env: Env, user: nat, req: Request) returns (c: Claim)
    requires CreateOutcome(s, now, env, req).None?
    ensures BoardOf(Create(s, now, env, user, req)) == Opened(BoardOf(s), c, now) && Openable(BoardOf(s), c, now)
    ensures c.lockedUntil <= c.expiresAt == c.lockedUntil + env.lag
  {
    ScanSucceedsIff(s.seats, Purge(s.locks, now), env.faultAt, req.passengers);
    StoredSeats(req.passengers);
    var b := NewBooking(s.fares[req.fare].price, now, env.lag, user, req);
    c := ClaimOf(b);
    MapAppend(s.bookings, b, ClaimOf);
  }

  lemma RefusedCreate(s: State, now: int, env: Env, user: nat, req: Request)
    requires CreateOutcome(s, now, env, req).Some?
    ensures var s' := Create(s, now, env, user, req); s' == s || s' == s.(locks := Purge(s.locks, now))
  {
  }

  lemma CreateKeepsSafe(s: State, now: int, env: Env, user: nat, req: Request)
    requires SafeAt(s, now)
    ensures SafeAt(Create(s, now, env, user, req), now)
  {
    if CreateOutcome(s, now, env, req).None? {
      var c := CreateOpens(s, now, env, user, req);
      OpenKeepsSafe(BoardOf(s), c, now);
    } else {
      RefusedCreate(s, now, env, user, req);
      PurgeKeeps(BoardOf(s), now, 0);
    }
  }

  lemma CreateKeepsBacked(s: State, now: int, env: Env, user: nat, req: Request, gap: nat)
    requires BackedAt(s, now, gap) && env.lag <= gap
    ensures BackedAt(Create(s, now, env, user, req), now, gap)
  {
    if CreateOutcome(s, now, env, req).None? {
      var c := CreateOpens(s, now, env, user, req);
      OpenKeepsBacked(BoardOf(s), c, now, gap);
    } else {
      RefusedCreate(s, now, env, user, req);
      PurgeKeeps(BoardOf(s), now, gap);
    }
  }

  // ---- Payments and cancellations --------------------------------------------------------------------

  lemma ConfirmTakes(s: State, now: int, id: nat)
    requires ConfirmOutcome(s, id).None?
    ensures BoardOf(Confirm(s, now, id)) == Take(BoardOf(s), id, s.locks - KeysOf(0, SeatsOf(s.bookings[id])))
  {
    MapUpdate(s.bookings, id, s.bookings[id].(status := Confirmed, confirmedAt := Some(now)), ClaimOf);
    PlacesFollow(s.seats, SeatsOf(s.bookings[id]), false);
  }

  /** Exactly when an accepted payment keeps the invariant: the booking's own locks still live, or its seats could
      be booked afresh. The code looks at neither. */
  lemma ConfirmKeepsSafeIff(s: State, now: int, id: nat, gap: nat)
    requires SafeAt(s, now) && BackedAt(s, now, gap) && ConfirmOutcome(s, id).None?
    ensures var c := ClaimOf(s.bookings[id]);
            SafeAt(Confirm(s, now, id), now) <==> HasClaim(c, now) || SeatsFree(BoardOf(s), now, c)
  {
    ConfirmTakes(s, now, id);
    FlightReleases(s.locks, s.bookings[id], now);
    TakeKeepsSafeIff(BoardOf(s), now, gap, id, s.locks - KeysOf(0, SeatsOf(s.bookings[id])));
  }

  lemma ConfirmKeepsBacked(s: State, now: int, id: nat, gap: nat)
    requires BackedAt(s, now, gap)
    ensures BackedAt(Confirm(s, now, id), now, gap)
  {
    if ConfirmOutcome(s, id).None? {
      ConfirmTakes(s, now, id);
      FlightReleases(s.locks, s.bookings[id], now);
      TakeKeepsBacked(BoardOf(s), now, gap, id, s.locks - KeysOf(0, SeatsOf(s.bookings[id])));
    }
  }

  /** Only confirmed flight bookings are cancelled, and their locks are long gone. */
  lemma CancelQuits(s: State, now: int, id: nat, user: nat)
    requires CancelOutcome(s, id, user).None?
    ensures BoardOf(s).claims[id].phase == Taken
    ensures BoardOf(Cancel(s, now, id, user)) == Quit(BoardOf(s), id, s.locks)
  {
    var b := s.bookings[id];
    MapUpdate(s.bookings, id, b.(status := Cancelled, refund := RefundFor(s, now, b)), ClaimOf);
    PlacesFollow(s.seats, SeatsOf(b), true);
  }

  lemma CancelKeepsSafe(s: State, now: int, id: nat, user: nat)
    requires SafeAt(s, now)
    ensures SafeAt(Cancel(s, now, id, user), now)
  {
    if CancelOutcome(s, id, user).None? {
      CancelQuits(s, now, id, user);
      TakenQuitKeepsSafe(BoardOf(s), now, id);
    }
  }

  lemma CancelKeepsBacked(s: State, now: int, id: nat, user: nat, gap: nat)
    requires BackedAt(s, now, gap)
    ensures BackedAt(Cancel(s, now, id, user), now, gap)
  {
    if CancelOutcome(s, id, user).None? {
      CancelQuits(s, now, id, user);
      QuitKeepsBacked(BoardOf(s), now, gap, id, s.locks);
    }
  }

  lemma SweepLapses(s: State, now: int)
    ensures var b, b' := BoardOf(s), BoardOf(Step(s, Sweeping(now)));
            b' == b.(claims := b'.claims) && Lapses(b.claims, b'.claims, now)
  {
  }

  /** Every event keeps locks and seat rows in step with the bookings, late payments included. */
  lemma StepKeepsBacked(s: State, clock: int, e: Event, gap: nat)
    requires BackedAt(s, clock, gap) && clock <= e.now && (e.Creating? ==> e.env.lag <= gap)
    ensures BackedAt(Step(s, e), e.now, gap)
  {
    assert BackedAt(s, e.now, gap);
    match e
    case Creating(now, env, user, req) => CreateKeepsBacked(s, now, env, user, req, gap);
    case Confirming(now, id) => ConfirmKeepsBacked(s, now, id, gap);
    case Cancelling(now, id, user) => CancelKeepsBacked(s, now, id, user, gap);
    case Sweeping(now) =>
      SweepLapses(s, now);
      LapseKeepsBacked(BoardOf(s), BoardOf(Step(s, e)).claims, now, gap);
  }

  // ---- Runs ------------------------------------------------------------------------------------------

  datatype Timed = Timed(state: State, clock: int)

  function TimedStep(t: Timed, e: Event): Timed {
    Timed(Step(t.state, e), e.now)
  }

  /** The clock does not run backwards, and no request takes longer than the gap from locking to stamping. */
  predicate InOrder(gap: nat, t: Timed, e: Event) {
    t.clock <= e.now && (e.Creating? ==> e.env.lag <= gap)
  }

  /** A payment that is accepted comes the gap ahead of the window's end, or finds its seats free. */
  predicate PaidInTime(gap: nat, t: Timed, e: Event) {
    e.Confirming? && ConfirmOutcome(t.state, e.id).None? ==>
      var b := t.state.bookings[e.id];
      e.now + gap <= b.expiresAt || SeatsFree(BoardOf(t.state), e.now, ClaimOf(b))
  }

  function Timely(gap: nat): (Timed, Event) -> bool {
    (t: Timed, e: Event) => InOrder(gap, t, e) && PaidInTime(gap, t, e)
  }

  lemma PaidKeepsSafe(gap: nat, t: Timed, e: Event)
    requires SafeAt(t.state, e.now) && BackedAt(t.state, e.now, gap) && e.Confirming? && PaidInTime(gap, t, e)
    ensures SafeAt(Confirm(t.state, e.now, e.id), e.now)
  {
    if ConfirmOutcome(t.state, e.id).None? {
      ConfirmKeepsSafeIff(t.state, e.now, e.id, gap);
      if !SeatsFree(BoardOf(t.state), e.now, ClaimOf(t.state.bookings[e.id])) {
        InTimeHasClaim(BoardOf(t.state), e.now, gap, e.id);
      }
    }
  }

  lemma StepKeepsSafe(gap: nat, t: Timed, e: Event)
    requires SafeAt(t.state, t.clock) && BackedAt(t.state, t.clock, gap)
    requires InOrder(gap, t, e) && PaidInTime(gap, t, e)
    ensures SafeAt(Step(t.state, e), e.now)
  {
    TimePasses(BoardOf(t.state), t.clock, e.now);
    assert BackedAt(t.state, e.now, gap);
    match e
    case Creating(now, env, user, req) => CreateKeepsSafe(t.state, now, env, user, req);
    case Confirming(now, id) => PaidKeepsSafe(gap, t, e);
    case Cancelling(now, id, user) => CancelKeepsSafe(t.state, now, id, user);
    case Sweeping(now) =>
      SweepLapses(t.state, now);
      LapseKeepsSafe(BoardOf(t.state), BoardOf(Step(t.state, e)).claims, now);
  }

  predicate ConfirmedSeat(s: State, i: int, k: nat) {
    0 <= i < |s.bookings| && s.bookings[i].status == Confirmed && k in SeatsOf(s.bookings[i])
  }

  /** No seat belongs to two CONFIRMED bookings. */
  ghost predicate NoDoubleBooking(s: State) {
    forall i, j, k: nat :: ConfirmedSeat(s, i, k) && ConfirmedSeat(s, j, k) ==> i == j
  }

  lemma SafeNeverDoubles(s: State, now: int)
    requires SafeAt(s, now)
    ensures NoDoubleBooking(s)
  {
    forall i, j, k: nat | ConfirmedSeat(s, i, k) && ConfirmedSeat(s, j, k)
      ensures i == j
    {
      SafeIsExclusive(BoardOf(s), now, i, j, k);
    }
  }

  /** Flight exclusivity: over every run whose payments come in time or find their seats free, however late
      windows are stamped, no seat is confirmed twice. */
  lemma FlightExclusive(gap: nat, s: State, start: int, evs: seq<Event>)
    requires s.bookings == [] && Admitted(TimedStep, Timely(gap), Timed(s, start), evs)
    ensures NoDoubleBooking(Run(TimedStep, Timed(s, start), evs).state)
  {
    var inv := (t: Timed) => SafeAt(t.state, t.clock) && BackedAt(t.state, t.clock, gap);
    forall t, e | inv(t) && Timely(gap)(t, e)
      ensures inv(TimedStep(t, e))
    {
      StepKeepsSafe(gap, t, e);
      StepKeepsBacked(t.state, t.clock, e, gap);
    }
    assert BoardOf(s).claims == [];
    RunKeeps(TimedStep, Timely(gap), inv, Timed(s, start), evs);
    var end := Run(TimedStep, Timed(s, start), evs);
    SafeNeverDoubles(end.state, end.clock);
  }

  // ---- A run that double books -----------------------------------------------------------------------

  /** A request whose one seat is available and unlocked is accepted when Redis and the database answer. */
  lemma SeatBooked(s: State, now: int, lag: nat, user: nat, req: Request, k: nat)
    requires EarlyError(s, req).None? && Requested(req.passengers) == [k]
    requires k < |s.seats| && s.seats[k].available && !Live(s.locks, Key(0, k), now)
    ensures var b := NewBooking(s.fares[req.fare].price, now, lag, user, req);
            var s' := Create(s, now, Env(lag, None, true), user, req);
            && s'.bookings == s.bookings + [b] && SeatsOf(b) == [k] && b.status == Pending
            && s'.seats == s.seats && s'.instances == s.instances && s'.fares == s.fares
            && Key(0, k) in s'.locks && s'.locks[Key(0, k)].until == now + HOLD
  {
    ScanSucceedsIff(s.seats, Purge(s.locks, now), None, req.passengers);
    StoredSeats(req.passengers);
    ClaimedExactly(Purge(s.locks, now), 0, [k], user, now + HOLD);
    assert KeysOf(0, [k]) == {Key(0, k)};
  }

  /** Two pending bookings of one seat: both payments are accepted. */
  lemma BothPaid(s: State, now: int, i: nat, j: nat, k: nat)
    requires i < |s.bookings| && j < |s.bookings| && i != j
    requires s.bookings[i].status == Pending && s.bookings[j].status == Pending
    requires k in SeatsOf(s.bookings[i]) && k in SeatsOf(s.bookings[j])
    ensures !NoDoubleBooking(Confirm(Confirm(s, now, i), now, j))
  {
    var end := Confirm(Confirm(s, now, i), now, j);
    assert ConfirmedSeat(end, i, k) && ConfirmedSeat(end, j, k);
  }

  /** The same seat booked a second time beside one pending booking, and both paid. */
  lemma BookedAgain(s: State, late: int, lag: nat, user: nat, req: Request, k: nat)
    requires |s.bookings| == 1 && s.bookings[0].status == Pending && SeatsOf(s.bookings[0]) == [k]
    requires EarlyError(s, req).None? && Requested(req.passengers) == [k]
    requires k < |s.seats| && s.seats[k].available && !Live(s.locks, Key(0, k), late)
    ensures !NoDoubleBooking(Confirm(Confirm(Create(s, late, Env(lag, None, true), user, req), late, 0), late, 1))
  {
    SeatBooked(s, late, lag, user, req, k);
    BothPaid(Create(s, late, Env(lag, None, true), user, req), late, 0, 1, k);
  }

  /** What two requests and two payments come to. */
  lemma RebookedRun(t0: Timed, now: int, late: int, env: Env, user: nat, user': nat, req: Request)
    requires t0.clock <= now <= late
    ensures var evs := [Creating(now, env, user, req), Creating(late, env, user', req),
                        Confirming(late, 0), Confirming(late, 1)];
            var s2 := Create(Create(t0.state, now, env, user, req), late, env, user', req);
            && Run(TimedStep, t0, evs).state == Confirm(Confirm(s2, late, 0), late, 1)
            && Admitted(TimedStep, (t: Timed, e: Event) => InOrder(env.lag, t, e), t0, evs)
  {
    var inOrder := (t: Timed, e: Event) => InOrder(env.lag, t, e);
    var e1, e2 := Creating(now, env, user, req), Creating(late, env, user', req);
    var e3, e4 := Confirming(late, 0), Confirming(late, 1);
    var t1 := TimedStep(t0, e1);
    var t2 := TimedStep(t1, e2);
    var t3 := TimedStep(t2, e3);
    FourSteps(TimedStep, t0, t1, t2, t3, TimedStep(t3, e4), e1, e2, e3, e4);
    FourAdmitted(TimedStep, inOrder, t0, t1, t2, t3, e1, e2, e3, e4);
  }

  /** On any flight without bookings, any free seat: booked, booked again once its lock has lapsed, and both
      bookings paid. With a positive lag the first payment even comes before the window its row shows ends. */
  lemma LapsedHoldRebooked(s: State, start: int, now: int, lag: nat, user: nat, user': nat, req: Request, k: nat)
    requires s.bookings == [] && EarlyError(s, req).None? && Requested(req.passengers) == [k]
    requires k < |s.seats| && s.seats[k].available && !Live(s.locks, Key(0, k), now) && start <= now
    ensures var env, late := Env(lag, None, true), now + HOLD + 1;
            var evs := [Creating(now, env, user, req), Creating(late, env, user', req),
                        Confirming(late, 0), Confirming(late, 1)];
            && !NoDoubleBooking(Run(TimedStep, Timed(s, start), evs).state)
            && Admitted(TimedStep, (t: Timed, e: Event) => InOrder(lag, t, e), Timed(s, start), evs)
            && var first := NewBooking(s.fares[req.fare].price, now, lag, user, req);
               Create(s, now, env, user, req).bookings == [first] && (lag > 0 ==> late <= first.expiresAt)
  {
    var env, late := Env(lag, None, true), now + HOLD + 1;
    SeatBooked(s, now, lag, user, req, k);
    BookedAgain(Create(s, now, env, user, req), late, lag, user', req, k);
    RebookedRun(Timed(s, start), now, late, env, user, user', req);
  }
}
