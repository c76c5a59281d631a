/** Why bus exclusivity needs its demands: runs on a bus with one seat that break it without them. */
module BusLimits {
  import opened Collections
  import opened Runs
  import opened SeatLocks
  import opened BusBooking
  import opened BusSafety
  import Refunds

  function OneSeat(bookings: seq<Booking>, available: bool, locks: Table): State {
    State([Fare(0, "sleeper", 156_000, true)], [Point(0, 1)], [Point(0, 2)], map[0 := DAY],
          [Seat(0, available, "sleeper", "GENERAL", 0)], bookings, map[], locks)
  }

  function HeldFor(user: nat, until: int): Table {
    map[Key(0, 0) := Lock(user, until)]
  }

  const SEAT_ZERO: Request := Request(0, 0, 0, 0, [Passenger(Some(0), "men", "adult", true)])

  /** A request for SEAT_ZERO whose window is stamped as late as the gap allows. */
  function Ask(cfg: Config, now: int, user: nat): Event {
    Creating(now, Env(cfg.gap, None, true), user, SEAT_ZERO)
  }

  /** The booking of SEAT_ZERO made at now. */
  function Hold(cfg: Config, user: nat, now: int, status: Status): Booking {
    Booking(user, 0, 0, [0], 163_800, status, now + cfg.gap + cfg.ttl, now + cfg.ttl, status == Confirmed, 0)
  }

  /** The bus at a moment: its bookings, whether the seat row is available, and the locks. */
  function At(bookings: seq<Booking>, available: bool, locks: Table, clock: int): Timed {
    Timed(OneSeat(bookings, available, locks), clock)
  }

  predicate AllDead(locks: Table, now: int) {
    forall k :: k in locks ==> locks[k].until < now
  }

  lemma CreateOnOneSeat(cfg: Config, bookings: seq<Booking>, locks: Table, clock: int, now: int, user: nat)
    requires AllDead(locks, now)
    ensures TimedStep(cfg)(At(bookings, true, locks, clock), Ask(cfg, now, user))
         == At(bookings + [Hold(cfg, user, now, Pending)], true, HeldFor(user, now + cfg.ttl), now)
  {
    var s, env := OneSeat(bookings, true, locks), Env(cfg.gap, None, true);
    assert EarlyError(s, SEAT_ZERO).None? && HalfPrices(s.seats, s.fares[0], SEAT_ZERO.passengers) == 312_000 by {
      QuoteOneSeat(bookings, locks);
    }
    assert Requested(SEAT_ZERO.passengers) == [0] && CommitError(locks, now, env, SEAT_ZERO).None? by {
      ClaimOneSeat(locks, now, env, user, cfg.ttl);
    }
    ClaimOneSeat(locks, now, env, user, cfg.ttl);
    var b := NewBooking(cfg, 312_000, now, cfg.gap, user, SEAT_ZERO);
    assert b == Hold(cfg, user, now, Pending);
    assert Create(cfg, s, now, env, user, SEAT_ZERO) == Commit(cfg, s, now, env, user, SEAT_ZERO, 312_000);
  }

  lemma QuoteOneSeat(bookings: seq<Booking>, locks: Table)
    ensures var s := OneSeat(bookings, true, locks);
            EarlyError(s, SEAT_ZERO).None? && HalfPrices(s.seats, s.fares[0], SEAT_ZERO.passengers) == 312_000
  {
    var s, ps := OneSeat(bookings, true, locks), SEAT_ZERO.passengers;
    assert ps[..0] == [];
    assert HalfPrices(s.seats, s.fares[0], ps) == 312_000;
    assert FirstError(s.seats, s.fares[0], 0, ps) == None;
  }

  lemma ClaimOneSeat(locks: Table, now: int, env: Env, user: nat, ttl: nat)
    requires AllDead(locks, now) && env.faultAt.None? && env.saved
    ensures Requested(SEAT_ZERO.passengers) == [0] && CommitError(locks, now, env, SEAT_ZERO).None?
    ensures Claimed(Purge(locks, now), 0, [0], user, now + ttl) == HeldFor(user, now + ttl)
  {
    assert SEAT_ZERO.passengers[..0] == [];
    assert Purge(locks, now) == map[];
    assert [0][..0] == [];
  }

  /** Confirming takes the seat row and drops only the confirming user's own lock. */
  lemma ConfirmOnOneSeat(cfg: Config, bookings: seq<Booking>, id: nat, available: bool,
                         owner: nat, until: int, clock: int, now: int, made: int, user: nat)
    requires id < |bookings| && bookings[id] == Hold(cfg, user, made, Pending) && now <= made + cfg.gap + cfg.ttl
             && now <= until
    ensures TimedStep(cfg)(At(bookings, available, HeldFor(owner, until), clock), Confirming(now, id, user))
         == At(bookings[id := Hold(cfg, user, made, Confirmed)], false,
               if owner == user then map[] else HeldFor(owner, until), now)
  {
    ReleasedOnOneSeat(owner, user, until, now);
    assert SetAvailable(OneSeat(bookings, available, map[]).seats, [0], false) == OneSeat(bookings, false, map[]).seats;
  }

  lemma ReleasedOnOneSeat(user: nat, other: nat, until: int, now: int)
    requires now <= until
    ensures ReleasedByOwner(HeldFor(user, until), 0, [0], other, now)
         == if user == other then map[] else HeldFor(user, until)
  {
    assert KeysOf(0, [0]) == {Key(0, 0)};
  }

  /** What the three kinds of event do to the one-seat bus, for any step function. */
  ghost predicate CreateLaw(cfg: Config, step: (Timed, Event) -> Timed) {
    forall bookings: seq<Booking>, locks: Table, clock: int, now: int, user: nat :: AllDead(locks, now) ==>
      step(At(bookings, true, locks, clock), Ask(cfg, now, user))
      == At(bookings + [Hold(cfg, user, now, Pending)], true, HeldFor(user, now + cfg.ttl), now)
  }

  ghost predicate ConfirmLaw(cfg: Config, step: (Timed, Event) -> Timed) {
    forall bookings: seq<Booking>, id: nat, available: bool, owner: nat, until: int, clock: int, now: int, made: int,
           user: nat ::
      id < |bookings| && bookings[id] == Hold(cfg, user, made, Pending) && now <= made + cfg.gap + cfg.ttl
      && now <= until ==>
        step(At(bookings, available, HeldFor(owner, until), clock), Confirming(now, id, user))
        == At(bookings[id := Hold(cfg, user, made, Confirmed)], false,
              if owner == user then map[] else HeldFor(owner, until), now)
  }

  ghost predicate CancelLaw(cfg: Config, step: (Timed, Event) -> Timed) {
    forall late: nat :: late < DAY ==>
      step(At([Hold(cfg, 1, 0, Pending), Hold(cfg, 2, late, Confirmed)], false, map[], late),
           Cancelling(late, 0, Some(1), []))
      == At([Hold(cfg, 1, 0, Cancelled), Hold(cfg, 2, late, Confirmed)], true, map[], late)
  }

  lemma LawsHold(cfg: Config)
    ensures CreateLaw(cfg, TimedStep(cfg)) && ConfirmLaw(cfg, TimedStep(cfg)) && CancelLaw(cfg, TimedStep(cfg))
  {
    forall bookings: seq<Booking>, locks: Table, clock: int, now: int, user: nat | AllDead(locks, now)
      ensures TimedStep(cfg)(At(bookings, true, locks, clock), Ask(cfg, now, user))
           == At(bookings + [Hold(cfg, user, now, Pending)], true, HeldFor(user, now + cfg.ttl), now)
    {
      CreateOnOneSeat(cfg, bookings, locks, clock, now, user);
    }
    forall bookings: seq<Booking>, id: nat, available: bool, owner: nat, until: int, clock: int, now: int, made: int,
           user: nat |
      id < |bookings| && bookings[id] == Hold(cfg, user, made, Pending) && now <= made + cfg.gap + cfg.ttl
      && now <= until
      ensures TimedStep(cfg)(At(bookings, available, HeldFor(owner, until), clock), Confirming(now, id, user))
           == At(bookings[id := Hold(cfg, user, made, Confirmed)], false,
                 if owner == user then map[] else HeldFor(owner, until), now)
    {
      ConfirmOnOneSeat(cfg, bookings, id, available, owner, until, clock, now, made, user);
    }
    forall late: nat | late < DAY
      ensures TimedStep(cfg)(At([Hold(cfg, 1, 0, Pending), Hold(cfg, 2, late, Confirmed)], false, map[], late),
                             Cancelling(late, 0, Some(1), []))
           == At([Hold(cfg, 1, 0, Cancelled), Hold(cfg, 2, late, Confirmed)], true, map[], late)
    {
      StaleCancel(cfg, late);
    }
  }

  /** Both users hold the seat in the gap, and both confirm it. */
  lemma GapRun(cfg: Config, step: (Timed, Event) -> Timed, t0: Timed, evs: seq<Event>)
    requires CreateLaw(cfg, step) && ConfirmLaw(cfg, step)
    requires cfg.gap > 0 && t0 == At([], true, map[], 0)
    requires var gap := cfg.ttl + 1;
             evs == [Ask(cfg, 0, 1), Ask(cfg, gap, 2), Confirming(gap, 0, 1), Confirming(gap, 1, 2)]
    ensures Admitted(step, Ordered(cfg), t0, evs)
    ensures Run(step, t0, evs)
            == At([Hold(cfg, 1, 0, Confirmed), Hold(cfg, 2, cfg.ttl + 1, Confirmed)], false, map[], cfg.ttl + 1)
  {
    var gap := cfg.ttl + 1;
    var b1, b2 := Hold(cfg, 1, 0, Pending), Hold(cfg, 2, gap, Pending);
    var c1, c2 := Hold(cfg, 1, 0, Confirmed), Hold(cfg, 2, gap, Confirmed);
    var until := gap + cfg.ttl;
    var t1, t2 := At([b1], true, HeldFor(1, 0 + cfg.ttl), 0), At([b1, b2], true, HeldFor(2, until), gap);
    var t3 := At([c1, b2], false, HeldFor(2, until), gap);
    assert [] + [b1] == [b1] && [b1] + [b2] == [b1, b2] && [b1, b2][0 := c1] == [c1, b2]
           && [c1, b2][1 := c2] == [c1, c2];
    FourSteps(step, t0, t1, t2, t3, At([c1, c2], false, map[], gap), evs[0], evs[1], evs[2], evs[3]);
    FourAdmitted(step, Ordered(cfg), t0, t1, t2, t3, evs[0], evs[1], evs[2], evs[3]);
    assert evs == [evs[0], evs[1], evs[2], evs[3]];
  }

  /** If ExpiresAt is stamped any later than the locks were claimed, two users can confirm one seat: the
      second books in the gap between the lock's end and the first booking's. */
  lemma LateStampDoubleBooks(cfg: Config)
    requires cfg.gap > 0
    ensures exists evs ::
              Admitted(TimedStep(cfg), Ordered(cfg), At([], true, map[], 0), evs)
              && !NoDoubleBooking(Run(TimedStep(cfg), At([], true, map[], 0), evs).state)
  {
    var gap := cfg.ttl + 1;
    var t0 := At([], true, map[], 0);
    var evs := [Ask(cfg, 0, 1), Ask(cfg, gap, 2), Confirming(gap, 0, 1), Confirming(gap, 1, 2)];
    LawsHold(cfg);
    GapRun(cfg, TimedStep(cfg), t0, evs);
    var end := Run(TimedStep(cfg), t0, evs).state;
    assert ConfirmedSeat(end, 0, 0) && ConfirmedSeat(end, 1, 0);
  }

  /** With no gap an accepted payment is always in time. */
  lemma {:induction false} OrderedIsTimely(cfg: Config, t: Timed, evs: seq<Event>)
    requires cfg.gap == 0 && Admitted(TimedStep(cfg), Ordered(cfg), t, evs)
    ensures Admitted(TimedStep(cfg), Timely(cfg), t, evs)
    decreases |evs|
  {
    if evs != [] {
      OrderedIsTimely(cfg, TimedStep(cfg)(t, evs[0]), evs[1..]);
    }
  }

  /** So the code's own expiry check keeps every run from double booking exactly when stamping takes no time;
      otherwise payments in the gap need the demand of BusExclusivity. */
  lemma ExpiryCheckEnoughIff(cfg: Config)
    ensures cfg.gap == 0 <==>
            forall s: State, start: int, evs: seq<Event> ::
              s.bookings == [] && Admitted(TimedStep(cfg), Ordered(cfg), Timed(s, start), evs) ==>
                NoDoubleBooking(Run(TimedStep(cfg), Timed(s, start), evs).state)
  {
    if cfg.gap == 0 {
      forall s: State, start: int, evs: seq<Event> |
        s.bookings == [] && Admitted(TimedStep(cfg), Ordered(cfg), Timed(s, start), evs)
        ensures NoDoubleBooking(Run(TimedStep(cfg), Timed(s, start), evs).state)
      {
        OrderedIsTimely(cfg, Timed(s, start), evs);
        BusExclusivity(cfg, s, start, evs);
      }
    } else {
      LateStampDoubleBooks(cfg);
      assert OneSeat([], true, map[]).bookings == [];
    }
  }

  /** The late cancellation frees the seat another booking has confirmed. */
  lemma StaleCancel(cfg: Config, late: nat)
    requires late < DAY
    ensures var b1, x1, c2 := Hold(cfg, 1, 0, Pending), Hold(cfg, 1, 0, Cancelled), Hold(cfg, 2, late, Confirmed);
            TimedStep(cfg)(At([b1, c2], false, map[], late), Cancelling(late, 0, Some(1), []))
            == At([x1, c2], true, map[], late)
  {
    var b1, c2 := Hold(cfg, 1, 0, Pending), Hold(cfg, 2, late, Confirmed);
    var s := OneSeat([b1, c2], false, map[]);
    assert CancelOutcome(s, late, 0, Some(1)).None? by {
      Refunds.CancellationWindows(DAY - late);
    }
    PendingCancel(cfg, s, late, late, 0, Some(1), []);
    UndoOnOneSeat(cfg, late);
  }

  lemma UndoOnOneSeat(cfg: Config, late: nat)
    ensures Undo(OneSeat([Hold(cfg, 1, 0, Pending), Hold(cfg, 2, late, Confirmed)], false, map[]), late, 0, 0)
         == OneSeat([Hold(cfg, 1, 0, Cancelled), Hold(cfg, 2, late, Confirmed)], true, map[])
  {
    var b1, x1, c2 := Hold(cfg, 1, 0, Pending), Hold(cfg, 1, 0, Cancelled), Hold(cfg, 2, late, Confirmed);
    assert [b1, c2][0 := x1] == [x1, c2];
    assert ReleasedByOwner(map[], 0, [0], 1, late) == map[];
  }

  /** Cancelling an unpaid booking pays nothing back. */
  lemma PendingCancel(cfg: Config, s: State, clock: int, now: int, id: nat, caller: Option<nat>,
                      policies: seq<Refunds.Policy>)
    requires CancelOutcome(s, now, id, caller).None? && s.bookings[id].status == Pending
    ensures TimedStep(cfg)(Timed(s, clock), Cancelling(now, id, caller, policies)) == Timed(Undo(s, now, id, 0), now)
  {
  }

  /** Booked by 1, booked again and confirmed by 2 once the lock is gone, cancelled by 1, booked and confirmed by 3. */
  lemma StaleRun(cfg: Config, step: (Timed, Event) -> Timed, late: nat, t0: Timed, first: seq<Event>)
    requires CreateLaw(cfg, step) && ConfirmLaw(cfg, step) && CancelLaw(cfg, step)
    requires cfg.ttl < late < DAY && t0 == At([], true, map[], 0)
    requires first == [Ask(cfg, 0, 1), Ask(cfg, late, 2), Confirming(late, 1, 2), Cancelling(late, 0, Some(1), [])]
    ensures Run(step, t0, first + [Ask(cfg, late, 3), Confirming(late, 2, 3)])
         == At([Hold(cfg, 1, 0, Cancelled), Hold(cfg, 2, late, Confirmed), Hold(cfg, 3, late, Confirmed)],
               false, map[], late)
  {
    var b1, b2, b3 := Hold(cfg, 1, 0, Pending), Hold(cfg, 2, late, Pending), Hold(cfg, 3, late, Pending);
    var x1, c2, c3 := Hold(cfg, 1, 0, Cancelled), Hold(cfg, 2, late, Confirmed), Hold(cfg, 3, late, Confirmed);
    var until := late + cfg.ttl;
    assert [] + [b1] == [b1] && [b1] + [b2] == [b1, b2] && [b1, b2][1 := c2] == [b1, c2];
    assert [x1, c2] + [b3] == [x1, c2, b3] && [x1, c2, b3][2 := c3] == [x1, c2, c3];
    FourSteps(step, t0, At([b1], true, HeldFor(1, 0 + cfg.ttl), 0), At([b1, b2], true, HeldFor(2, until), late),
              At([b1, c2], false, map[], late), At([x1, c2], true, map[], late),
              first[0], first[1], first[2], first[3]);
    assert first == [first[0], first[1], first[2], first[3]];
    TwoMore(step, t0, first, At([x1, c2], true, map[], late), At([x1, c2, b3], true, HeldFor(3, until), late),
            At([x1, c2, c3], false, map[], late), Ask(cfg, late, 3), Confirming(late, 2, 3));
  }

  /** A pending booking left past its window and cancelled late frees a seat confirmed since, which a third
      user then confirms: without the demand on cancellations a run double books. */
  lemma StaleCancelDoubleBooks(cfg: Config, late: nat)
    requires cfg.ttl < late < DAY
    ensures var evs := [Ask(cfg, 0, 1), Ask(cfg, late, 2), Confirming(late, 1, 2), Cancelling(late, 0, Some(1), [])]
                       + [Ask(cfg, late, 3), Confirming(late, 2, 3)];
            !NoDoubleBooking(Run(TimedStep(cfg), At([], true, map[], 0), evs).state)
  {
    var first := [Ask(cfg, 0, 1), Ask(cfg, late, 2), Confirming(late, 1, 2), Cancelling(late, 0, Some(1), [])];
    LawsHold(cfg);
    StaleRun(cfg, TimedStep(cfg), late, At([], true, map[], 0), first);
    var end := Run(TimedStep(cfg), At([], true, map[], 0), first + [Ask(cfg, late, 3), Confirming(late, 2, 3)]).state;
    assert ConfirmedSeat(end, 1, 0) && ConfirmedSeat(end, 2, 0);
  }
}
