/** Why the train machine needs its demands: runs from empty tables that break it without them. */
module TrainLimits {
  import opened Collections
  import opened Runs
  import opened SeatLocks
  import opened TrainInventory
  import opened TrainBooking
  import opened TrainSafety
  import Refunds

  const SMOOTH: Env := Env(0, None, true)

  /** A request for one sleeper berth. */
  function Ask(id: nat, from: string, to: string, k: nat): Request {
    Request(id, from, to, "SL", [k], [true])
  }

  predicate Fresh(s: State) {
    Empty(s) && s.locks == map[]
  }

  lemma FreshIsConserved(s: State)
    requires Fresh(s)
    ensures Conserved(s)
  {
    assert forall b, k: nat :: !Holds(s.bookings, b, k);
  }

  /** A new schedule has a free sleeper berth of its own. */
  lemma SleeperBerth(s: State, id: nat, sch: Schedule) returns (k: nat)
    requires id !in s.schedules
    ensures k in Free(Generate(s, id, sch).berths, id, "SL")
  {
    DefaultCapacity();
    GeneratedFree(s.berths, id, DefaultConfig(), id, "SL");
    var free := Free(Generate(s, id, sch).berths, id, "SL");
    assert free != {} by {
      assert |free| >= 24;
    }
    k :| k in free;
  }

  predicate Fits(s: State, id: nat, from: string, to: string) {
    id in s.schedules && RouteOk(s.schedules[id], from, to)
  }

  /** A request for one free, unlocked sleeper berth is accepted, whatever schedule the berth is of. */
  lemma BerthBooked(s: State, now: int, user: nat, id: nat, from: string, to: string, k: nat, owner: nat)
    requires Fits(s, id, from, to) && k in Free(s.berths, owner, "SL") && !Live(s.locks, Key(id, k), now)
    ensures CreateOutcome(s, now, SMOOTH, Ask(id, from, to, k)).None?
    ensures var s' := Create(s, now, SMOOTH, user, Ask(id, from, to, k));
            exists total, window :: s'.bookings == s.bookings + [Booking(user, id, "SL", [k], total, Pending, window)]
    ensures Create(s, now, SMOOTH, user, Ask(id, from, to, k)).schedules == s.schedules
  {
    var req := Ask(id, from, to, k);
    FoundAll(s.berths, [k]);
    NoSeatError(s.berths, [k], "SL");
    CreatedTables(s, now, SMOOTH, user, req);
    var b := NewBooking(s.berths, now, 0, user, req);
    assert Create(s, now, SMOOTH, user, req).bookings
           == s.bookings + [Booking(user, id, "SL", [k], b.total, Pending, b.expiresAt)];
  }

  /** The only booking, once cancelled, leaves its berth to nobody. */
  lemma CancelledState(s: State, later: int, user: nat, policies: seq<Refunds.Policy>, id: nat, k: nat)
    requires |s.bookings| == 1 && id in s.schedules
    requires exists total, window :: s.bookings[0] == Booking(user, id, "SL", [k], total, Pending, window)
    requires Refunds.ActivePolicy(policies, Refunds.TruncHours(s.schedules[id].departureAt - later)).Some?
    ensures CancelOutcome(s, later, 0, user, policies).None?
    ensures var s' := Cancel(s, later, 0, user, policies);
            && |s'.bookings| == 1 && s'.bookings[0] == s.bookings[0].(status := Cancelled)
            && s'.schedules == s.schedules
            && s'.locks == s.locks - {Key(id, k)}
            && s'.berths == SetStatus(s.berths, [k], Available)
  {
    assert KeysOf(id, [k]) == {Key(id, k)};
  }

  /** A failure event for a settled booking whose berths are free counts them twice. */
  lemma FreeFailureMiscounts(s: State, id: nat)
    requires Conserved(s) && id < |s.bookings|
    requires forall k :: k in s.bookings[id].seats ==> k < |s.berths| && s.berths[k].status == Available
    ensures !CountersExact(Fail(s, id))
  {
    var b, s' := s.bookings[id], Fail(s, id);
    assert b.seats[0] in b.seats && PlacedIn(b, s.berths);
    var c := (b.schedule, b.travelClass);
    assert c in s.available && s.available[c] == |Free(s.berths, c.0, c.1)|;
    assert s'.berths == s.berths;
    assert s'.available[c] == s.available[c] + |b.seats|;
  }

  /** The events up to the cancellation. */
  function BookThenCancel(id: nat, sch: Schedule, req: Request, now: int, later: int, user: nat,
                          policies: seq<Refunds.Policy>)
    : seq<Event>
  {
    [Generating(id, sch), Creating(now, SMOOTH, user, req), Cancelling(later, 0, user, policies)]
  }

  /** What BookedAndCancelled leaves behind. */
  predicate OneCancelled(s: State, id: nat, from: string, to: string, k: nat) {
    && |s.bookings| == 1 && s.bookings[0].status == Cancelled && s.bookings[0].seats == [k]
    && k in Free(s.berths, id, "SL") && Fits(s, id, from, to) && Key(id, k) !in s.locks
  }

  /** The berth booked on the new schedule, before it is cancelled. */
  lemma BookedFirst(s: State, id: nat, sch: Schedule, from: string, to: string, now: int, user: nat)
    returns (k: nat, s1: State, s2: State)
    requires Fresh(s) && RouteOk(sch, from, to)
    ensures Step(s, Generating(id, sch)) == s1
    ensures Step(s1, Creating(now, SMOOTH, user, Ask(id, from, to, k))) == s2
    ensures WellAddressed(s1, Creating(now, SMOOTH, user, Ask(id, from, to, k)))
    ensures Conserved(s2) && |s2.bookings| == 1 && id in s2.schedules && s2.schedules[id] == sch
    ensures exists total, window :: s2.bookings[0] == Booking(user, id, "SL", [k], total, Pending, window)
  {
    FreshIsConserved(s);
    s1 := Generate(s, id, sch);
    StepKeepsConserved(s, Generating(id, sch));
    k := SleeperBerth(s, id, sch);
    BerthBooked(s1, now, user, id, from, to, k, id);
    s2 := Create(s1, now, SMOOTH, user, Ask(id, from, to, k));
    StepKeepsConserved(s1, Creating(now, SMOOTH, user, Ask(id, from, to, k)));
  }

  lemma CancelledFirst(s: State, id: nat, from: string, to: string, k: nat, later: int, user: nat,
                       policies: seq<Refunds.Policy>)
    returns (s': State)
    requires Conserved(s) && |s.bookings| == 1 && Fits(s, id, from, to)
    requires exists total, window :: s.bookings[0] == Booking(user, id, "SL", [k], total, Pending, window)
    requires Refunds.ActivePolicy(policies, Refunds.TruncHours(s.schedules[id].departureAt - later)).Some?
    ensures Step(s, Cancelling(later, 0, user, policies)) == s'
    ensures Conserved(s') && OneCancelled(s', id, from, to, k)
  {
    s' := Cancel(s, later, 0, user, policies);
    CancelledState(s, later, user, policies, id, k);
    StepKeepsConserved(s, Cancelling(later, 0, user, policies));
    assert s'.bookings[0].seats == [k] && PlacedIn(s'.bookings[0], s'.berths);
    assert k in [k] && k < |s'.berths| && IsFree(s'.berths[k], id, "SL");
    assert Key(id, k) !in s'.locks;
  }

  lemma ReachedBy(s: State, s1: State, s2: State, s3: State, evs: seq<Event>, id: nat, from: string, to: string, k: nat)
    requires |evs| == 3 && Step(s, evs[0]) == s1 && Step(s1, evs[1]) == s2 && Step(s2, evs[2]) == s3
    requires WellAddressed(s, evs[0]) && WellAddressed(s1, evs[1]) && WellAddressed(s2, evs[2])
    requires Conserved(s3) && OneCancelled(s3, id, from, to, k)
    ensures Admitted(Step, WellAddressed, s, evs) && Conserved(Run(Step, s, evs))
            && OneCancelled(Run(Step, s, evs), id, from, to, k)
  {
    ThreeSteps(Step, WellAddressed, s, s1, s2, s3, evs[0], evs[1], evs[2]);
    assert evs == [evs[0], evs[1], evs[2]];
  }

  /** The state the two runs below share: one sleeper berth of a new schedule booked and cancelled again. */
  lemma BookedAndCancelled(s: State, id: nat, sch: Schedule, from: string, to: string, now: int, later: int, user: nat,
                           policies: seq<Refunds.Policy>)
    returns (k: nat)
    requires Fresh(s) && RouteOk(sch, from, to)
    requires Refunds.ActivePolicy(policies, Refunds.TruncHours(sch.departureAt - later)).Some?
    ensures var evs := BookThenCancel(id, sch, Ask(id, from, to, k), now, later, user, policies);
            && Admitted(Step, WellAddressed, s, evs)
            && Conserved(Run(Step, s, evs)) && OneCancelled(Run(Step, s, evs), id, from, to, k)
  {
    var s1, s2;
    k, s1, s2 := BookedFirst(s, id, sch, from, to, now, user);
    var s3 := CancelledFirst(s2, id, from, to, k, later, user, policies);
    ReachedBy(s, s1, s2, s3, BookThenCancel(id, sch, Ask(id, from, to, k), now, later, user, policies),
              id, from, to, k);
  }

  lemma FailAfter(s: State, evs: seq<Event>, end: State)
    requires Run(Step, s, evs) == end && !CountersExact(Fail(end, 0))
    ensures !CountersExact(Run(Step, s, evs + [Failing(0)]))
  {
    RunSnoc(Step, s, evs, Failing(0));
  }

  /** Generated, booked, cancelled, and then payment.failed: the counter ends above the free berths. */
  lemma LateFailureMiscounts(s: State, id: nat, sch: Schedule, from: string, to: string, now: int, later: int,
                             user: nat, policies: seq<Refunds.Policy>)
    returns (k: nat)
    requires Fresh(s) && RouteOk(sch, from, to)
    requires Refunds.ActivePolicy(policies, Refunds.TruncHours(sch.departureAt - later)).Some?
    ensures var evs := BookThenCancel(id, sch, Ask(id, from, to, k), now, later, user, policies);
            Admitted(Step, WellAddressed, s, evs) && !CountersExact(Run(Step, s, evs + [Failing(0)]))
  {
    k := BookedAndCancelled(s, id, sch, from, to, now, later, user, policies);
    var evs := BookThenCancel(id, sch, Ask(id, from, to, k), now, later, user, policies);
    FreeFailureMiscounts(Run(Step, s, evs), 0);
    FailAfter(s, evs, Run(Step, s, evs));
  }

  lemma RebookedThenFailed(s: State, id: nat, from: string, to: string, k: nat, later: int, user: nat)
    requires Conserved(s) && OneCancelled(s, id, from, to, k)
    ensures WellAddressed(s, Creating(later, SMOOTH, user, Ask(id, from, to, k)))
    ensures !OneHolderEach(Fail(Create(s, later, SMOOTH, user, Ask(id, from, to, k)), 0))
  {
    BerthBooked(s, later, user, id, from, to, k, id);
    CreatedTables(s, later, SMOOTH, user, Ask(id, from, to, k));
    FailureFrees(Create(s, later, SMOOTH, user, Ask(id, from, to, k)), k);
  }

  lemma RebookThenFail(s: State, evs: seq<Event>, end: State, id: nat, from: string, to: string, k: nat, later: int,
                       user: nat)
    requires Admitted(Step, WellAddressed, s, evs) && Run(Step, s, evs) == end
    requires WellAddressed(end, Creating(later, SMOOTH, user, Ask(id, from, to, k)))
    requires !OneHolderEach(Fail(Create(end, later, SMOOTH, user, Ask(id, from, to, k)), 0))
    ensures var again := Creating(later, SMOOTH, user, Ask(id, from, to, k));
            Admitted(Step, WellAddressed, s, evs + [again])
            && !OneHolderEach(Run(Step, s, evs + [again] + [Failing(0)]))
  {
    var s2 := Create(end, later, SMOOTH, user, Ask(id, from, to, k));
    SnocTwice(Step, WellAddressed, s, evs, end, s2, Fail(s2, 0), Creating(later, SMOOTH, user, Ask(id, from, to, k)),
              Failing(0));
  }

  /** The same with the berth booked again in between: the failure frees the berth of the second booking. */
  lemma LateFailureFreesBerth(s: State, id: nat, sch: Schedule, from: string, to: string, now: int, later: int,
                              user: nat, user': nat, policies: seq<Refunds.Policy>)
    returns (k: nat)
    requires Fresh(s) && RouteOk(sch, from, to)
    requires Refunds.ActivePolicy(policies, Refunds.TruncHours(sch.departureAt - later)).Some?
    ensures var evs := BookThenCancel(id, sch, Ask(id, from, to, k), now, later, user, policies)
                       + [Creating(later, SMOOTH, user', Ask(id, from, to, k))];
            Admitted(Step, WellAddressed, s, evs) && !OneHolderEach(Run(Step, s, evs + [Failing(0)]))
  {
    k := BookedAndCancelled(s, id, sch, from, to, now, later, user, policies);
    var evs := BookThenCancel(id, sch, Ask(id, from, to, k), now, later, user, policies);
    RebookedThenFailed(Run(Step, s, evs), id, from, to, k, later, user');
    RebookThenFail(s, evs, Run(Step, s, evs), id, from, to, k, later, user');
  }

  lemma FailureFrees(s: State, k: nat)
    requires |s.bookings| == 2 && s.bookings[0].seats == s.bookings[1].seats == [k] && s.bookings[1].status == Pending
    requires k < |s.berths|
    ensures !OneHolderEach(Fail(s, 0))
  {
    var s' := Fail(s, 0);
    assert Holds(s'.bookings, 1, k) && s'.berths[k].status == Available;
  }

  lemma TwoSchedules(s: State, id: nat, other: nat, sch: Schedule, sch': Schedule, from: string, to: string)
    returns (k: nat, s1: State, s2: State)
    requires Fresh(s) && RouteOk(sch, from, to) && id != other
    ensures Step(s, Generating(id, sch)) == s1 && Step(s1, Generating(other, sch')) == s2
    ensures Conserved(s2) && Fits(s2, id, from, to) && s2.locks == map[] && k in Free(s2.berths, other, "SL")
  {
    FreshIsConserved(s);
    s1 := Generate(s, id, sch);
    s2 := Generate(s1, other, sch');
    GenerateKeepsConserved(s, id, sch);
    GenerateKeepsConserved(s1, other, sch');
    k := SleeperBerth(s1, other, sch');
  }

  lemma ForeignBerthBooked(s: State, id: nat, other: nat, from: string, to: string, now: int, user: nat, k: nat)
    requires Conserved(s) && Fits(s, id, from, to) && s.locks == map[] && k in Free(s.berths, other, "SL")
             && id != other
    ensures var req := Ask(id, from, to, k);
            CreateOutcome(s, now, SMOOTH, req).None? && !CountersExact(Create(s, now, SMOOTH, user, req))
  {
    var req := Ask(id, from, to, k);
    BerthBooked(s, now, user, id, from, to, k, other);
    assert !SeatsOfSchedule(s, req) by {
      assert k in req.seats;
    }
    ForeignSeatBreaks(s, now, SMOOTH, user, req);
  }

  lemma ForeignRun(s: State, s1: State, s2: State, e1: Event, e2: Event, now: int, user: nat, req: Request)
    requires e1.Generating? && e2.Generating? && Step(s, e1) == s1 && Step(s1, e2) == s2
    ensures var evs := [e1, e2, Creating(now, SMOOTH, user, req)];
            && Admitted(Step, ReleasesActive, s, evs)
            && Run(Step, s, [e1, e2]) == s2 && Run(Step, s, evs) == Create(s2, now, SMOOTH, user, req)
  {
    ThreeSteps(Step, ReleasesActive, s, s1, s2, Create(s2, now, SMOOTH, user, req), e1, e2,
               Creating(now, SMOOTH, user, req));
  }

  /** Two schedules, and an accepted request for the first that names a berth of the second: the counter of the
      second ends above its free berths, although no failure or expiry is out of place. */
  lemma ForeignSeatMiscounts(s: State, id: nat, other: nat, sch: Schedule, sch': Schedule, from: string, to: string,
                             now: int, user: nat)
    returns (k: nat)
    requires Fresh(s) && RouteOk(sch, from, to) && id != other
    ensures var e1, e2, req := Generating(id, sch), Generating(other, sch'), Ask(id, from, to, k);
            && Admitted(Step, ReleasesActive, s, [e1, e2, Creating(now, SMOOTH, user, req)])
            && CreateOutcome(Run(Step, s, [e1, e2]), now, SMOOTH, req).None?
            && !CountersExact(Run(Step, s, [e1, e2, Creating(now, SMOOTH, user, req)]))
  {
    var s1, s2;
    k, s1, s2 := TwoSchedules(s, id, other, sch, sch', from, to);
    ForeignBerthBooked(s2, id, other, from, to, now, user, k);
    ForeignRun(s, s1, s2, Generating(id, sch), Generating(other, sch'), now, user, Ask(id, from, to, k));
  }
}
