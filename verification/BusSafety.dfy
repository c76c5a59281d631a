/** Seat exclusivity of the bus machine: no run confirms one seat twice, although creating a booking
    changes no seat row. */
module BusSafety {
  import opened Collections
  import opened Runs
  import opened SeatLocks
  import opened SeatClaims
  import opened BusBooking
  import Refunds

  // ---- The tables as a board -------------------------------------------------------------------------

  function PhaseOf(status: Status): Phase {
    match status
    case Pending => Held
    case Confirmed => Taken
    case _ => Over
  }

  function ClaimOf(b: Booking): Claim {
    Claim(b.user, b.trip, b.seats, PhaseOf(b.status), b.lockedUntil, b.expiresAt)
  }

  function PlaceOf(s: Seat): Place {
    Place(s.trip, s.available)
  }

  function BoardOf(s: State): Board {
    Board(MapRows(s.bookings, ClaimOf), MapRows(s.seats, PlaceOf), s.locks)
  }

  ghost predicate SafeAt(s: State, now: int) {
    Safe(BoardOf(s), now)
  }

  ghost predicate BackedAt(s: State, now: int, gap: nat) {
    Backed(BoardOf(s), now, gap)
  }

  lemma PlacesFollow(seats: seq<Seat>, ids: seq<nat>, available: bool)
    ensures MapRows(SetAvailable(seats, ids, available), PlaceOf) == SetOpen(MapRows(seats, PlaceOf), ids, available)
  {
  }

  /** Bus releases are owner-checked. */
  lemma BusReleases(locks: Table, b: Booking, now: int)
    ensures var locks' := ReleasedByOwner(locks, b.trip, b.seats, b.user, now);
            Releases(locks, locks', ClaimOf(b), now) && SparesOthers(locks, locks', ClaimOf(b))
  {
    assert forall k :: k in b.seats ==> Key(b.trip, k) in KeysOf(b.trip, b.seats);
  }

  // ---- Creation --------------------------------------------------------------------------------------

  /** Passengers with no error ask for available seats of the trip. */
  lemma {:induction false} QuotedSeats(seats: seq<Seat>, fare: Fare, trip: nat, ps: seq<Passenger>)
    requires FirstError(seats, fare, trip, ps).None?
    ensures forall k :: k in Requested(ps) ==> k < |seats| && seats[k].available && seats[k].trip == trip
    decreases |ps|
  {
    if ps != [] {
      QuotedSeats(seats, fare, trip, ps[..|ps| - 1]);
    }
  }

  /** An accepted request opens a claim, a refused one drops dead locks at most. */
  lemma CreateOpens(cfg: Config, s: State, now: int, env: Env, user: nat, req: Request) returns (c: Claim)
    requires CreateOutcome(s, now, env, req).None?
    ensures BoardOf(Create(cfg, s, now, env, user, req)) == Opened(BoardOf(s), c, now) && Openable(BoardOf(s), c, now)
    ensures c.lockedUntil <= c.expiresAt == c.lockedUntil + env.lag
  {
    QuotedSeats(s.seats, s.fares[req.fare], req.trip, req.passengers);
    var b := NewBooking(cfg, HalfPrices(s.seats, s.fares[req.fare], req.passengers), now, env.lag, user, req);
    c := ClaimOf(b);
    MapAppend(s.bookings, b, ClaimOf);
  }

  lemma RefusedCreate(cfg: Config, s: State, now: int, env: Env, user: nat, req: Request)
    requires CreateOutcome(s, now, env, req).Some?
    ensures var s' := Create(cfg, s, now, env, user, req); s' == s || s' == s.(locks := Purge(s.locks, now))
  {
  }

  /** A new booking takes only seats without any claim, however long stamping its window takes. */
  lemma CreateKeepsSafe(cfg: Config, s: State, now: int, env: Env, user: nat, req: Request)
    requires SafeAt(s, now)
    ensures SafeAt(Create(cfg, s, now, env, user, req), now)
  {
    if CreateOutcome(s, now, env, req).None? {
      var c := CreateOpens(cfg, s, now, env, user, req);
      OpenKeepsSafe(BoardOf(s), c, now);
    } else {
      RefusedCreate(cfg, s, now, env, user, req);
      PurgeKeeps(BoardOf(s), now, 0);
    }
  }

  lemma CreateKeepsBacked(cfg: Config, s: State, now: int, env: Env, user: nat, req: Request)
    requires BackedAt(s, now, cfg.gap) && env.lag <= cfg.gap
    ensures BackedAt(Create(cfg, s, now, env, user, req), now, cfg.gap)
  {
    if CreateOutcome(s, now, env, req).None? {
      var c := CreateOpens(cfg, s, now, env, user, req);
      OpenKeepsBacked(BoardOf(s), c, now, cfg.gap);
    } else {
      RefusedCreate(cfg, s, now, env, user, req);
      PurgeKeeps(BoardOf(s), now, cfg.gap);
    }
  }

  // ---- Confirmation ----------------------------------------------------------------------------------

  lemma ConfirmTakes(s: State, now: int, id: nat, user: nat)
    requires ConfirmOutcome(s, now, id, user).None?
    ensures var b := s.bookings[id];
            BoardOf(Confirm(s, now, id, user))
            == Take(BoardOf(s), id, ReleasedByOwner(s.locks, b.trip, b.seats, b.user, now))
  {
    MapUpdate(s.bookings, id, s.bookings[id].(status := Confirmed, wasConfirmed := true), ClaimOf);
    PlacesFollow(s.seats, s.bookings[id].seats, false);
  }

  /** A refused confirmation turns a row past its window EXPIRED, or changes nothing. */
  lemma RefusalLapses(s: State, now: int, id: nat, user: nat)
    requires ConfirmOutcome(s, now, id, user).Some?
    ensures var b, b' := BoardOf(s), BoardOf(Confirm(s, now, id, user));
            b' == b.(claims := b'.claims) && Lapses(b.claims, b'.claims, now)
  {
  }

  /** Exactly when an accepted confirmation keeps the invariant: the booking's own locks still live, or its seats
      could be booked afresh. The check against ExpiresAt misses the gap between the two. */
  lemma ConfirmKeepsSafeIff(s: State, now: int, id: nat, user: nat, gap: nat)
    requires SafeAt(s, now) && BackedAt(s, now, gap) && ConfirmOutcome(s, now, id, user).None?
    ensures var c := ClaimOf(s.bookings[id]);
            SafeAt(Confirm(s, now, id, user), now) <==> HasClaim(c, now) || SeatsFree(BoardOf(s), now, c)
  {
    var b := s.bookings[id];
    ConfirmTakes(s, now, id, user);
    BusReleases(s.locks, b, now);
    TakeKeepsSafeIff(BoardOf(s), now, gap, id, ReleasedByOwner(s.locks, b.trip, b.seats, b.user, now));
  }

  // ---- Cancellation and expiry -----------------------------------------------------------------------

  lemma UndoQuits(s: State, now: int, id: nat, refund: nat)
    requires id < |s.bookings|
    ensures var b := s.bookings[id];
            BoardOf(Undo(s, now, id, refund))
            == Quit(BoardOf(s), id, ReleasedByOwner(s.locks, b.trip, b.seats, b.user, now))
  {
    MapUpdate(s.bookings, id, s.bookings[id].(status := Cancelled, refund := refund), ClaimOf);
    PlacesFollow(s.seats, s.bookings[id].seats, true);
  }

  /** Exactly when an accepted cancellation, by user or admin, keeps the invariant: the booking still has its claim,
      or nobody has taken its seats and its user has not locked them again. */
  lemma CancelKeepsSafeIff(s: State, now: int, id: nat, caller: Option<nat>, policies: seq<Refunds.Policy>, gap: nat)
    requires SafeAt(s, now) && BackedAt(s, now, gap) && CancelOutcome(s, now, id, caller).None?
    ensures var c := ClaimOf(s.bookings[id]);
            SafeAt(Cancel(s, now, id, caller, policies), now) <==> HasClaim(c, now) || SeatsQuit(BoardOf(s), now, c)
  {
    var b := s.bookings[id];
    UndoQuits(s, now, id, RefundFor(s, now, id, policies));
    BusReleases(s.locks, b, now);
    QuitKeepsSafeIff(BoardOf(s), now, gap, id, ReleasedByOwner(s.locks, b.trip, b.seats, b.user, now));
  }

  lemma SweepLapses(s: State, now: int)
    ensures var b, b' := BoardOf(s), BoardOf(Sweep(s, now));
            b' == b.(claims := b'.claims) && Lapses(b.claims, b'.claims, now)
  {
  }

  /** Every event keeps locks and seat rows in step with the bookings, whatever demands it meets. */
  lemma StepKeepsBacked(cfg: Config, s: State, clock: int, e: Event)
    requires BackedAt(s, clock, cfg.gap) && clock <= e.now && (e.Creating? ==> e.env.lag <= cfg.gap)
    ensures BackedAt(Step(cfg, s, e), e.now, cfg.gap)
  {
    assert BackedAt(s, e.now, cfg.gap);
    match e
    case Creating(now, env, user, req) => CreateKeepsBacked(cfg, s, now, env, user, req);
    case Confirming(now, id, user) => ConfirmKeepsBacked(cfg, s, now, id, user);
    case Cancelling(now, id, caller, policies) => CancelKeepsBacked(cfg, s, now, id, caller, policies);
    case Sweeping(now) =>
      SweepLapses(s, now);
      LapseKeepsBacked(BoardOf(s), BoardOf(Sweep(s, now)).claims, now, cfg.gap);
    case Finalizing(now) =>
  }

  lemma ConfirmKeepsBacked(cfg: Config, s: State, now: int, id: nat, user: nat)
    requires BackedAt(s, now, cfg.gap)
    ensures BackedAt(Confirm(s, now, id, user), now, cfg.gap)
  {
    if ConfirmOutcome(s, now, id, user).None? {
      var b := s.bookings[id];
      ConfirmTakes(s, now, id, user);
      BusReleases(s.locks, b, now);
      TakeKeepsBacked(BoardOf(s), now, cfg.gap, id, ReleasedByOwner(s.locks, b.trip, b.seats, b.user, now));
    } else {
      RefusalLapses(s, now, id, user);
      LapseKeepsBacked(BoardOf(s), BoardOf(Confirm(s, now, id, user)).claims, now, cfg.gap);
    }
  }

  lemma CancelKeepsBacked(cfg: Config, s: State, now: int, id: nat, caller: Option<nat>, policies: seq<Refunds.Policy>)
    requires BackedAt(s, now, cfg.gap)
    ensures BackedAt(Cancel(s, now, id, caller, policies), now, cfg.gap)
  {
    if CancelOutcome(s, now, id, caller).None? {
      var b := s.bookings[id];
      UndoQuits(s, now, id, RefundFor(s, now, id, policies));
      BusReleases(s.locks, b, now);
      QuitKeepsBacked(BoardOf(s), now, cfg.gap, id, ReleasedByOwner(s.locks, b.trip, b.seats, b.user, now));
    }
  }

  // ---- Runs ------------------------------------------------------------------------------------------

  /** A state with the last clock reading. */
  datatype Timed = Timed(state: State, clock: int)

  function TimedStep(cfg: Config): (Timed, Event) -> Timed {
    (t: Timed, e: Event) => Timed(Step(cfg, t.state, e), e.now)
  }

  /** The clock does not run backwards, no request takes longer than the gap from claiming to stamping, and a
      pending booking is cancelled the gap ahead of its window's end, or once its seats are quit. */
  predicate InOrder(cfg: Config, t: Timed, e: Event) {
    && t.clock <= e.now
    && (e.Creating? ==> e.env.lag <= cfg.gap)
    && (e.Cancelling? && CancelOutcome(t.state, e.now, e.id, e.caller).None? ==>
          var b := t.state.bookings[e.id];
          b.status == Confirmed || e.now + cfg.gap <= b.expiresAt || SeatsQuit(BoardOf(t.state), e.now, ClaimOf(b)))
  }

  /** A payment that is accepted comes the gap ahead of the window's end, or finds its seats free. */
  predicate PaidInTime(cfg: Config, t: Timed, e: Event) {
    e.Confirming? && ConfirmOutcome(t.state, e.now, e.id, e.user).None? ==>
      var b := t.state.bookings[e.id];
      e.now + cfg.gap <= b.expiresAt || SeatsFree(BoardOf(t.state), e.now, ClaimOf(b))
  }

  function Ordered(cfg: Config): (Timed, Event) -> bool {
    (t: Timed, e: Event) => InOrder(cfg, t, e)
  }

  function Timely(cfg: Config): (Timed, Event) -> bool {
    (t: Timed, e: Event) => InOrder(cfg, t, e) && PaidInTime(cfg, t, e)
  }

  lemma PaidKeepsSafe(cfg: Config, t: Timed, e: Event)
    requires SafeAt(t.state, e.now) && BackedAt(t.state, e.now, cfg.gap) && e.Confirming? && PaidInTime(cfg, t, e)
    ensures SafeAt(Confirm(t.state, e.now, e.id, e.user), e.now)
  {
    if ConfirmOutcome(t.state, e.now, e.id, e.user).None? {
      ConfirmKeepsSafeIff(t.state, e.now, e.id, e.user, cfg.gap);
      if !SeatsFree(BoardOf(t.state), e.now, ClaimOf(t.state.bookings[e.id])) {
        InTimeHasClaim(BoardOf(t.state), e.now, cfg.gap, e.id);
      }
    } else {
      RefusalLapses(t.state, e.now, e.id, e.user);
      LapseKeepsSafe(BoardOf(t.state), BoardOf(Confirm(t.state, e.now, e.id, e.user)).claims, e.now);
    }
  }

  lemma QuitInOrderKeepsSafe(cfg: Config, t: Timed, e: Event)
    requires SafeAt(t.state, e.now) && BackedAt(t.state, e.now, cfg.gap) && e.Cancelling? && InOrder(cfg, t, e)
    ensures SafeAt(Cancel(t.state, e.now, e.id, e.caller, e.policies), e.now)
  {
    if CancelOutcome(t.state, e.now, e.id, e.caller).None? {
      var b := t.state.bookings[e.id];
      CancelKeepsSafeIff(t.state, e.now, e.id, e.caller, e.policies, cfg.gap);
      if b.status != Confirmed && !SeatsQuit(BoardOf(t.state), e.now, ClaimOf(b)) {
        InTimeHasClaim(BoardOf(t.state), e.now, cfg.gap, e.id);
      }
    }
  }

  lemma StepKeepsSafe(cfg: Config, t: Timed, e: Event)
    requires SafeAt(t.state, t.clock) && BackedAt(t.state, t.clock, cfg.gap)
    requires InOrder(cfg, t, e) && PaidInTime(cfg, t, e)
    ensures SafeAt(Step(cfg, t.state, e), e.now)
  {
    TimePasses(BoardOf(t.state), t.clock, e.now);
    assert BackedAt(t.state, e.now, cfg.gap);
    match e
    case Creating(now, env, user, req) => CreateKeepsSafe(cfg, t.state, now, env, user, req);
    case Confirming(now, id, user) => PaidKeepsSafe(cfg, t, e);
    case Cancelling(now, id, caller, policies) => QuitInOrderKeepsSafe(cfg, t, e);
    case Sweeping(now) =>
      SweepLapses(t.state, now);
      LapseKeepsSafe(BoardOf(t.state), BoardOf(Sweep(t.state, now)).claims, now);
    case Finalizing(now) =>
  }

  predicate ConfirmedSeat(s: State, i: int, k: nat) {
    0 <= i < |s.bookings| && s.bookings[i].status == Confirmed && k in s.bookings[i].seats
  }

  /** No seat belongs to two CONFIRMED bookings. */
  ghost predicate NoDoubleBooking(s: State) {
    forall i, j, k: nat :: ConfirmedSeat(s, i, k) && ConfirmedSeat(s, j, k) ==> i == j
  }

  lemma SafeNeverDoubles(s: State, now: int)
    requires SafeAt(s, now)
    ensures NoDoubleBooking(s)
  {
    forall i, j, k: nat | ConfirmedSeat(s, i, k) && ConfirmedSeat(s, j, k)
      ensures i == j
    {
      SafeIsExclusive(BoardOf(s), now, i, j, k);
    }
  }

  /** Bus exclusivity, over every run, however late windows are stamped. */
  lemma BusExclusivity(cfg: Config, s: State, start: int, evs: seq<Event>)
    requires s.bookings == [] && Admitted(TimedStep(cfg), Timely(cfg), Timed(s, start), evs)
    ensures NoDoubleBooking(Run(TimedStep(cfg), Timed(s, start), evs).state)
  {
    var inv := (t: Timed) => SafeAt(t.state, t.clock) && BackedAt(t.state, t.clock, cfg.gap);
    forall t, e | inv(t) && Timely(cfg)(t, e)
      ensures inv(TimedStep(cfg)(t, e))
    {
      StepKeepsSafe(cfg, t, e);
      StepKeepsBacked(cfg, t.state, t.clock, e);
    }
    assert BoardOf(s).claims == [];
    RunKeeps(TimedStep(cfg), Timely(cfg), inv, Timed(s, start), evs);
    var end := Run(TimedStep(cfg), Timed(s, start), evs);
    SafeNeverDoubles(end.state, end.clock);
  }

  // ---- Repeated deliveries ---------------------------------------------------------------------------

  predicate Settled(s: State, id: nat) {
    id < |s.bookings| && s.bookings[id].status != Pending
  }

  lemma StepKeepsSettled(cfg: Config, s: State, e: Event, id: nat)
    requires Settled(s, id)
    ensures Settled(Step(cfg, s, e), id)
  {
    match e
    case Creating(now, env, user, req) => assert Create(cfg, s, now, env, user, req).bookings[id] == s.bookings[id];
    case Confirming(now, other, user) =>
    case Cancelling(now, other, caller, policies) =>
      assert CancelOutcome(s, now, other, caller).None? ==>
        Cancel(s, now, other, caller, policies) == Undo(s, now, other, RefundFor(s, now, other, policies));
    case Sweeping(now) =>
    case Finalizing(now) =>
  }

  /** Bus: repeated payment.completed events for a booking, delivered whenever after the first that reached
      it, change nothing; a first one that came too late counts too. */
  lemma ConfirmedOnce(cfg: Config, s: State, now: int, id: nat, user: nat, before: seq<Event>, after: seq<Event>,
                      after': seq<Event>)
    requires var s1 := Run((s, e) => Step(cfg, s, e), s, before); id < |s1.bookings| && s1.bookings[id].user == user
    requires var repeat := (e: Event) => e.Confirming? && e.id == id; Without(repeat, after) == Without(repeat, after')
    ensures var step := (s, e) => Step(cfg, s, e); var first := Confirming(now, id, user);
            Run(step, s, before + ([first] + after)) == Run(step, s, before + ([first] + after'))
  {
    var step := (s, e) => Step(cfg, s, e);
    var settled := (s: State) => Settled(s, id);
    var repeat := (e: Event) => e.Confirming? && e.id == id;
    forall s, e | settled(s)
      ensures settled(step(s, e))
    {
      StepKeepsSettled(cfg, s, e, id);
    }
    RepeatsVanish(step, settled, repeat, s, before, Confirming(now, id, user), after, after');
  }
}
