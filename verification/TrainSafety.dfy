/** What every run of the train machine keeps: one holder per berth, statuses that follow the bookings,
    and counters that equal the free berths. */
module TrainSafety {
  import opened Collections
  import opened Runs
  import opened SeatLocks
  import opened TrainInventory
  import opened TrainBooking
  import Refunds

  predicate Holds(bookings: seq<Booking>, b: int, k: nat) {
    0 <= b < |bookings| && Active(bookings[b]) && k in bookings[b].seats
  }

  /** The berth status an active booking of this status implies. */
  function Implied(status: Status): SeatStatus {
    match status
    case Pending => PendingPayment
    case Confirmed => Booked
    case _ => Available
  }

  predicate SeatsSane(bookings: seq<Booking>, rows: nat) {
    forall b :: 0 <= b < |bookings| ==>
      bookings[b].seats != [] && NoDup(bookings[b].seats) && Known(bookings[b].seats, rows)
  }

  ghost predicate HeldOnce(bookings: seq<Booking>) {
    forall b, c, k: nat :: Holds(bookings, b, k) && Holds(bookings, c, k) ==> b == c
  }

  ghost predicate StatusFollows(bookings: seq<Booking>, berths: seq<Berth>) {
    && (forall b, k: nat :: Holds(bookings, b, k) && k < |berths| ==> berths[k].status == Implied(bookings[b].status))
    && (forall k: nat :: k < |berths| && berths[k].status != Available ==> exists b :: Holds(bookings, b, k))
  }

  /** Each berth has at most one active booking and exactly the status that booking implies. */
  ghost predicate Exclusive(bookings: seq<Booking>, berths: seq<Berth>) {
    SeatsSane(bookings, |berths|) && HeldOnce(bookings) && StatusFollows(bookings, berths)
  }

  lemma Append(bookings: seq<Booking>, berths: seq<Berth>, b: Booking)
    requires Exclusive(bookings, berths)
    requires b.status == Pending && b.seats != [] && NoDup(b.seats) && Known(b.seats, |berths|)
    requires forall k :: k in b.seats ==> k < |berths| && berths[k].status == Available
    ensures Exclusive(bookings + [b], SetStatus(berths, b.seats, PendingPayment))
  {
    var bookings', berths' := bookings + [b], SetStatus(berths, b.seats, PendingPayment);
    var n := |bookings|;
    forall c, k: nat
      ensures Holds(bookings', c, k) <==> Holds(bookings, c, k) || (c == n && k in b.seats)
    {
    }
    forall k: nat | k < |berths'| && berths'[k].status != Available
      ensures exists c :: Holds(bookings', c, k)
    {
      if k in b.seats {
        assert Holds(bookings', n, k);
      } else {
        var c :| Holds(bookings, c, k);
        assert Holds(bookings', c, k);
      }
    }
  }

  /** An active booking moving to any status, its berths following. */
  lemma Restatus(bookings: seq<Booking>, berths: seq<Berth>, id: nat, status: Status)
    requires Exclusive(bookings, berths) && id < |bookings| && Active(bookings[id])
    ensures Exclusive(bookings[id := bookings[id].(status := status)],
                      SetStatus(berths, bookings[id].seats, Implied(status)))
  {
    var b := bookings[id];
    var bookings', berths' := bookings[id := b.(status := status)], SetStatus(berths, b.seats, Implied(status));
    forall c, k: nat
      ensures Holds(bookings', c, k) <==> Holds(bookings, c, k) && (c == id ==> Active(bookings'[id]))
    {
    }
    forall c, k: nat | Holds(bookings', c, k) && k < |berths|
      ensures berths'[k].status == Implied(bookings'[c].status)
    {
      if c != id {
        assert !Holds(bookings, id, k);
      }
    }
    forall k: nat | k < |berths'| && berths'[k].status != Available
      ensures exists c :: Holds(bookings', c, k)
    {
      if k in b.seats {
        assert Holds(bookings', id, k);
      } else {
        var c :| Holds(bookings, c, k);
        assert Holds(bookings', c, k);
      }
    }
  }

  lemma GenerateKeepsExclusive(s: State, id: nat, sch: Schedule)
    requires Exclusive(s.bookings, s.berths)
    ensures Exclusive(Generate(s, id, sch).bookings, Generate(s, id, sch).berths)
  {
    var more := Generated(id, DefaultConfig());
    forall i | 0 <= i < |more|
      ensures more[i].status == Available
    {
      GeneratedBerthsBelong(id, DefaultConfig(), i);
    }
    var berths' := s.berths + more;
    assert forall k: nat :: k < |berths'| && berths'[k].status != Available ==> k < |s.berths|;
    forall b, k: nat | Holds(s.bookings, b, k)
      ensures k < |s.berths|
    {
    }
  }

  lemma AcceptedRequest(s: State, now: int, env: Env, req: Request)
    requires CreateOutcome(s, now, env, req).None?
    ensures req.seats != [] && NoDup(req.seats) && Known(req.seats, |s.berths|)
    ensures forall k :: k in req.seats ==>
              k < |s.berths| && s.berths[k].status == Available && s.berths[k].travelClass == req.travelClass
    ensures req.travelClass in CLASSES && Grantable(s.locks, req.schedule, req.seats, now)
  {
    FoundAll(s.berths, req.seats);
    NoSeatError(s.berths, req.seats, req.travelClass);
  }

  /** What a failure or expiry event must meet, everything else being checked by the code. */
  predicate ReleasesActive(s: State, e: Event) {
    match e
    case Failing(id) => id < |s.bookings| ==> Active(s.bookings[id])
    case ExpiringListed(id) => id < |s.bookings| ==> Active(s.bookings[id])
    case _ => true
  }

  ghost predicate Safe(s: State) {
    Exclusive(s.bookings, s.berths)
  }

  lemma ReleaseKeepsSafe(s: State, id: nat, status: Status)
    requires Safe(s) && id < |s.bookings| && Active(s.bookings[id]) && status !in {Pending, Confirmed}
    ensures Safe(Release(s, id, status))
  {
    Restatus(s.bookings, s.berths, id, status);
  }

  /** The rows the pass lists are distinct, pending and overdue, and all such rows are listed. */
  lemma {:induction false} OverdueExactly(bookings: seq<Booking>, now: int, n: nat)
    requires n <= |bookings|
    ensures NoDup(Overdue(bookings, now, n)) && Known(Overdue(bookings, now, n), n)
    ensures forall id: nat :: id in Overdue(bookings, now, n)
              <==> id < n && bookings[id].status == Pending && bookings[id].expiresAt < now
  {
    if n > 0 {
      OverdueExactly(bookings, now, n - 1);
    }
  }

  /** Which rows a prefix of the pass has expired; nothing else about any booking changes. */
  lemma {:induction false} ExpireAllBookings(s: State, ids: seq<nat>)
    requires Known(ids, |s.bookings|)
    ensures |ExpireAll(s, ids).bookings| == |s.bookings|
    ensures forall b: nat :: b < |s.bookings| ==>
              ExpireAll(s, ids).bookings[b] == if b in ids then s.bookings[b].(status := Expired) else s.bookings[b]
    decreases |ids|
  {
    if ids != [] {
      var init, last := ids[..|ids| - 1], ids[|ids| - 1];
      assert ids == init + [last];
      ExpireAllBookings(s, init);
    }
  }

  lemma {:induction false} ExpireAllKeepsSafe(s: State, ids: seq<nat>)
    requires Safe(s) && NoDup(ids) && Known(ids, |s.bookings|)
    requires forall i :: 0 <= i < |ids| ==> Active(s.bookings[ids[i]])
    ensures Safe(ExpireAll(s, ids))
    decreases |ids|
  {
    if ids != [] {
      var init, last := ids[..|ids| - 1], ids[|ids| - 1];
      ExpireAllKeepsSafe(s, init);
      ExpireAllBookings(s, init);
      ReleaseKeepsSafe(ExpireAll(s, init), last, Expired);
    }
  }

  lemma CreateKeepsSafe(s: State, now: int, env: Env, user: nat, req: Request)
    requires Safe(s)
    ensures Safe(Create(s, now, env, user, req))
  {
    if CreateOutcome(s, now, env, req).None? {
      AcceptedRequest(s, now, env, req);
      FoundAll(s.berths, req.seats);
      Append(s.bookings, s.berths, NewBooking(s.berths, now, env.lag, user, req));
    }
  }

  lemma StepKeepsSafe(s: State, e: Event)
    requires Safe(s) && ReleasesActive(s, e)
    ensures Safe(Step(s, e))
  {
    match e
    case Generating(id, sch) => GenerateKeepsExclusive(s, id, sch);
    case Creating(now, env, user, req) => CreateKeepsSafe(s, now, env, user, req);
    case Completing(id) =>
      if id < |s.bookings| && s.bookings[id].status == Pending {
        Restatus(s.bookings, s.berths, id, Confirmed);
      }
    case Failing(id) =>
      if id < |s.bookings| {
        ReleaseKeepsSafe(s, id, Failed);
      }
    case Cancelling(now, id, user, policies) =>
      if CancelOutcome(s, now, id, user, policies).None? {
        ReleaseKeepsSafe(s, id, Cancelled);
      }
    case Expiring(now) =>
      OverdueExactly(s.bookings, now, |s.bookings|);
      ExpireAllKeepsSafe(s, Overdue(s.bookings, now, |s.bookings|));
    case ExpiringListed(id) =>
      if id < |s.bookings| {
        ReleaseKeepsSafe(s, id, Expired);
      }
  }

  predicate Empty(s: State) {
    s.berths == [] && s.bookings == [] && s.available == map[] && s.schedules == map[]
  }

  /** At most one active booking per berth, the status that booking implies, and AVAILABLE without one. */
  ghost predicate OneHolderEach(s: State) {
    && (forall b, c, k: nat :: Holds(s.bookings, b, k) && Holds(s.bookings, c, k) ==> b == c)
    && (forall b, k: nat :: Holds(s.bookings, b, k) && k < |s.berths| ==>
          s.berths[k].status == Implied(s.bookings[b].status))
    && (forall k: nat :: k < |s.berths| ==>
          (s.berths[k].status == Available <==> !exists b :: Holds(s.bookings, b, k)))
  }

  /** Train exclusivity, over every run. */
  lemma TrainExclusivity(s: State, evs: seq<Event>)
    requires Empty(s) && Admitted(Step, ReleasesActive, s, evs)
    ensures OneHolderEach(Run(Step, s, evs))
  {
    forall s, e | Safe(s) && ReleasesActive(s, e)
      ensures Safe(Step(s, e))
    {
      StepKeepsSafe(s, e);
    }
    RunKeeps(Step, ReleasesActive, Safe, s, evs);
  }

  // ---- Counters -----------------------------------------------------------------------------------

  /** The booking's berths are of the schedule and class its row names. */
  predicate PlacedIn(b: Booking, berths: seq<Berth>) {
    forall k :: k in b.seats ==>
      k < |berths| && berths[k].schedule == b.schedule && berths[k].travelClass == b.travelClass
  }

  predicate Placed(bookings: seq<Booking>, berths: seq<Berth>) {
    forall b :: 0 <= b < |bookings| ==> PlacedIn(bookings[b], berths)
  }

  lemma PlacedKept(b: Booking, berths: seq<Berth>, ids: seq<nat>, status: SeatStatus)
    requires PlacedIn(b, berths)
    ensures PlacedIn(b, SetStatus(berths, ids, status))
  {
  }

  /** The counter rows are those of the generated schedules. */
  ghost predicate RowsListed(s: State) {
    && (forall c :: c in s.available <==> c.0 in s.schedules && c.1 in CLASSES)
    && (forall k: nat :: k < |s.berths| ==> (s.berths[k].schedule, s.berths[k].travelClass) in s.available)
  }

  ghost predicate CountersAgree(available: map<(nat, string), int>, berths: seq<Berth>) {
    forall c :: c in available ==> available[c] == |Free(berths, c.0, c.1)|
  }

  /** Each counter row equals the AVAILABLE berths of its schedule and class. */
  ghost predicate Counted(s: State) {
    RowsListed(s) && CountersAgree(s.available, s.berths)
  }

  ghost predicate Conserved(s: State) {
    Safe(s) && Placed(s.bookings, s.berths) && Counted(s)
  }

  /** Taking distinct free berths of one class lowers that count by their number and no other. */
  lemma TakeCounts(berths: seq<Berth>, ids: seq<nat>, status: SeatStatus, schedule: nat, travelClass: string,
                   c: (nat, string))
    requires NoDup(ids) && Known(ids, |berths|) && status != Available
    requires forall k :: k in ids ==> k < |berths| && IsFree(berths[k], schedule, travelClass)
    ensures |Free(SetStatus(berths, ids, status), c.0, c.1)|
            == |Free(berths, c.0, c.1)| - if c == (schedule, travelClass) then |ids| else 0
  {
    var berths' := SetStatus(berths, ids, status);
    var free, free' := Free(berths, c.0, c.1), Free(berths', c.0, c.1);
    assert forall k: nat :: k in ids ==> (k in free <==> c == (schedule, travelClass)) && k !in free';
    assert forall k: nat :: k !in ids ==> (k in free <==> k in free');
    if c == (schedule, travelClass) {
      assert free' == free - SetOf(ids) && SetOf(ids) <= free;
      NoDupCardinality(ids);
    } else {
      assert free' == free;
    }
  }

  /** Giving distinct occupied berths of one class back raises that count by their number and no other. */
  lemma GiveCounts(berths: seq<Berth>, ids: seq<nat>, schedule: nat, travelClass: string, c: (nat, string))
    requires NoDup(ids) && Known(ids, |berths|)
    requires forall k :: k in ids ==> k < |berths| && berths[k].status != Available
                                      && berths[k].schedule == schedule && berths[k].travelClass == travelClass
    ensures |Free(SetStatus(berths, ids, Available), c.0, c.1)|
            == |Free(berths, c.0, c.1)| + if c == (schedule, travelClass) then |ids| else 0
  {
    var free, free' := Free(berths, c.0, c.1), Free(SetStatus(berths, ids, Available), c.0, c.1);
    if c == (schedule, travelClass) {
      assert free' == free + SetOf(ids) && free !! SetOf(ids);
      NoDupCardinality(ids);
    } else {
      assert free' == free;
    }
  }

  /** Moving berths between two occupied statuses leaves every count alone. */
  lemma SwapCounts(berths: seq<Berth>, ids: seq<nat>, status: SeatStatus, c: (nat, string))
    requires status != Available
    requires forall k :: k in ids && k < |berths| ==> berths[k].status != Available
    ensures Free(SetStatus(berths, ids, status), c.0, c.1) == Free(berths, c.0, c.1)
  {
  }

  /** The requested seats are all of the requested schedule, which the code does not check. */
  predicate SeatsOfSchedule(s: State, req: Request) {
    forall k :: k in req.seats && k < |s.berths| ==> s.berths[k].schedule == req.schedule
  }

  predicate WellAddressed(s: State, e: Event) {
    ReleasesActive(s, e) && (e.Creating? ==> SeatsOfSchedule(s, e.req))
  }

  /** The counter update of a creation matches what it does to the berths. */
  lemma TakeKeepsCounters(available: map<(nat, string), int>, berths: seq<Berth>, ids: seq<nat>, schedule: nat,
                          travelClass: string)
    requires CountersAgree(available, berths) && (schedule, travelClass) in available && travelClass in CLASSES
    requires NoDup(ids) && Known(ids, |berths|)
    requires forall k :: k in ids ==> k < |berths| && IsFree(berths[k], schedule, travelClass)
    ensures CountersAgree(AddAvailable(available, schedule, travelClass, -|ids|),
                          SetStatus(berths, ids, PendingPayment))
  {
    var available' := AddAvailable(available, schedule, travelClass, -|ids|);
    forall c | c in available'
      ensures available'[c] == |Free(SetStatus(berths, ids, PendingPayment), c.0, c.1)|
    {
      TakeCounts(berths, ids, PendingPayment, schedule, travelClass, c);
    }
  }

  /** s' is s with booking b written. */
  predicate Writes(s: State, s': State, b: Booking) {
    && s'.bookings == s.bookings + [b] && s'.schedules == s.schedules
    && s'.berths == SetStatus(s.berths, b.seats, PendingPayment)
    && s'.available == AddAvailable(s.available, b.schedule, b.travelClass, -|b.seats|)
  }

  /** What an accepted request writes. */
  lemma CreatedTables(s: State, now: int, env: Env, user: nat, req: Request)
    requires CreateOutcome(s, now, env, req).None?
    ensures Known(req.seats, |s.berths|)
            && Writes(s, Create(s, now, env, user, req), NewBooking(s.berths, now, env.lag, user, req))
  {
    FoundAll(s.berths, req.seats);
  }

  lemma CreateKeepsConserved(s: State, now: int, env: Env, user: nat, req: Request)
    requires Conserved(s) && SeatsOfSchedule(s, req) && CreateOutcome(s, now, env, req).None?
    ensures Conserved(Create(s, now, env, user, req))
  {
    assert Safe(Create(s, now, env, user, req)) by {
      CreateKeepsSafe(s, now, env, user, req);
    }
    CreateKeepsCounted(s, now, env, user, req);
  }

  lemma CreateKeepsCounted(s: State, now: int, env: Env, user: nat, req: Request)
    requires Counted(s) && Placed(s.bookings, s.berths) && SeatsOfSchedule(s, req)
             && CreateOutcome(s, now, env, req).None?
    ensures var s' := Create(s, now, env, user, req); Counted(s') && Placed(s'.bookings, s'.berths)
  {
    CreateBooks(s, now, env, user, req);
    BookKeepsCounted(s, Create(s, now, env, user, req), NewBooking(s.berths, now, env.lag, user, req));
  }

  /** b takes free berths of its own schedule and class, and s' records it. */
  predicate Books(s: State, s': State, b: Booking) {
    && PlacedIn(b, s.berths) && b.seats != [] && NoDup(b.seats) && Known(b.seats, |s.berths|)
    && b.travelClass in CLASSES
    && (forall k :: k in b.seats ==> k < |s.berths| && s.berths[k].status == Available)
    && Writes(s, s', b)
  }

  lemma CreateBooks(s: State, now: int, env: Env, user: nat, req: Request)
    requires SeatsOfSchedule(s, req) && CreateOutcome(s, now, env, req).None?
    ensures Known(req.seats, |s.berths|)
            && Books(s, Create(s, now, env, user, req), NewBooking(s.berths, now, env.lag, user, req))
  {
    AcceptedRequest(s, now, env, req);
    CreatedTables(s, now, env, user, req);
  }

  lemma BookKeepsCounted(s: State, s': State, b: Booking)
    requires Counted(s) && Placed(s.bookings, s.berths) && Books(s, s', b)
    ensures Counted(s') && Placed(s'.bookings, s'.berths)
  {
    assert b.seats[0] in b.seats;
    TakeKeepsCounters(s.available, s.berths, b.seats, b.schedule, b.travelClass);
    PlacedAppend(s.bookings, s.berths, b);
  }

  lemma PlacedAppend(bookings: seq<Booking>, berths: seq<Berth>, b: Booking)
    requires Placed(bookings, berths)
    requires PlacedIn(b, berths)
    ensures Placed(bookings + [b], SetStatus(berths, b.seats, PendingPayment))
  {
    forall c | 0 <= c < |bookings + [b]|
      ensures PlacedIn((bookings + [b])[c], SetStatus(berths, b.seats, PendingPayment))
    {
      PlacedKept((bookings + [b])[c], berths, b.seats, PendingPayment);
    }
  }

  /** The counter update of a release matches what it does to the berths. */
  lemma GiveKeepsCounters(available: map<(nat, string), int>, berths: seq<Berth>, b: Booking)
    requires CountersAgree(available, berths) && (b.schedule, b.travelClass) in available && b.travelClass in CLASSES
    requires NoDup(b.seats) && Known(b.seats, |berths|) && PlacedIn(b, berths)
    requires forall k :: k in b.seats ==> k < |berths| && berths[k].status != Available
    ensures CountersAgree(AddAvailable(available, b.schedule, b.travelClass, |b.seats|),
                          SetStatus(berths, b.seats, Available))
  {
    var available' := AddAvailable(available, b.schedule, b.travelClass, |b.seats|);
    forall c | c in available'
      ensures available'[c] == |Free(SetStatus(berths, b.seats, Available), c.0, c.1)|
    {
      GiveCounts(berths, b.seats, b.schedule, b.travelClass, c);
    }
  }

  lemma StatusChangePlaced(bookings: seq<Booking>, berths: seq<Berth>, id: nat, status: Status, seatStatus: SeatStatus)
    requires Placed(bookings, berths) && id < |bookings|
    ensures Placed(bookings[id := bookings[id].(status := status)], SetStatus(berths, bookings[id].seats, seatStatus))
  {
    var bookings' := bookings[id := bookings[id].(status := status)];
    forall b | 0 <= b < |bookings|
      ensures PlacedIn(bookings'[b], SetStatus(berths, bookings[id].seats, seatStatus))
    {
      PlacedKept(bookings[b], berths, bookings[id].seats, seatStatus);
    }
  }

  /** The seats of an active booking are occupied berths of a counted class. */
  lemma ActiveSeats(s: State, id: nat)
    requires Conserved(s) && id < |s.bookings| && Active(s.bookings[id])
    ensures var b := s.bookings[id];
            NoDup(b.seats) && Known(b.seats, |s.berths|) && PlacedIn(b, s.berths)
            && (b.schedule, b.travelClass) in s.available && b.travelClass in CLASSES
            && forall k :: k in b.seats ==> k < |s.berths| && s.berths[k].status != Available
  {
    var b := s.bookings[id];
    assert b.seats[0] in b.seats;
    forall k | k in b.seats
      ensures k < |s.berths| && s.berths[k].status != Available
    {
      assert Holds(s.bookings, id, k);
    }
  }

  lemma ReleaseKeepsConserved(s: State, id: nat, status: Status)
    requires Conserved(s) && id < |s.bookings| && Active(s.bookings[id]) && status !in {Pending, Confirmed}
    ensures Conserved(Release(s, id, status))
  {
    ActiveSeats(s, id);
    ReleaseKeepsSafe(s, id, status);
    GiveKeepsCounters(s.available, s.berths, s.bookings[id]);
    StatusChangePlaced(s.bookings, s.berths, id, status, Available);
    assert Counted(Release(s, id, status));
  }

  lemma SwapKeepsCounters(available: map<(nat, string), int>, berths: seq<Berth>, ids: seq<nat>)
    requires CountersAgree(available, berths)
    requires forall k :: k in ids && k < |berths| ==> berths[k].status != Available
    ensures CountersAgree(available, SetStatus(berths, ids, Booked))
  {
    forall c | c in available
      ensures available[c] == |Free(SetStatus(berths, ids, Booked), c.0, c.1)|
    {
      SwapCounts(berths, ids, Booked, c);
    }
  }

  lemma CompleteKeepsConserved(s: State, id: nat)
    requires Conserved(s)
    ensures Conserved(Complete(s, id))
  {
    if id < |s.bookings| && s.bookings[id].status == Pending {
      ActiveSeats(s, id);
      Restatus(s.bookings, s.berths, id, Confirmed);
      SwapKeepsCounters(s.available, s.berths, s.bookings[id].seats);
      StatusChangePlaced(s.bookings, s.berths, id, Confirmed, Booked);
      assert Counted(Complete(s, id));
    }
  }

  lemma {:induction false} ExpireAllKeepsConserved(s: State, ids: seq<nat>)
    requires Conserved(s) && NoDup(ids) && Known(ids, |s.bookings|)
    requires forall i :: 0 <= i < |ids| ==> Active(s.bookings[ids[i]])
    ensures Conserved(ExpireAll(s, ids))
    decreases |ids|
  {
    if ids != [] {
      var init, last := ids[..|ids| - 1], ids[|ids| - 1];
      ExpireAllKeepsConserved(s, init);
      ExpireAllBookings(s, init);
      ReleaseKeepsConserved(ExpireAll(s, init), last, Expired);
    }
  }

  /** The counters of a new schedule are its free berths, and no other counter changes. */
  lemma GenerateCounts(s: State, id: nat, sch: Schedule, c: (nat, string))
    requires Conserved(s) && id !in s.schedules && c in Generate(s, id, sch).available
    ensures Generate(s, id, sch).available[c] == |Free(Generate(s, id, sch).berths, c.0, c.1)|
  {
    GeneratedFree(s.berths, id, DefaultConfig(), c.0, c.1);
    if c.0 == id {
      forall k: nat | k < |s.berths|
        ensures s.berths[k].schedule != id
      {
        assert (s.berths[k].schedule, s.berths[k].travelClass) in s.available;
      }
      assert Free(s.berths, c.0, c.1) == {};
    }
  }

  lemma GenerateKeepsRows(s: State, id: nat, sch: Schedule)
    requires RowsListed(s) && id !in s.schedules
    ensures RowsListed(Generate(s, id, sch))
  {
    var s' := Generate(s, id, sch);
    DefaultCapacity();
    forall k: nat | k < |s'.berths|
      ensures (s'.berths[k].schedule, s'.berths[k].travelClass) in s'.available
    {
      if |s.berths| <= k {
        GeneratedBerthsBelong(id, DefaultConfig(), k - |s.berths|);
      }
    }
  }

  lemma GenerateKeepsPlaced(s: State, id: nat, sch: Schedule)
    requires Placed(s.bookings, s.berths)
    ensures Placed(Generate(s, id, sch).bookings, Generate(s, id, sch).berths)
  {
    var s' := Generate(s, id, sch);
    forall b | 0 <= b < |s.bookings|
      ensures PlacedIn(s.bookings[b], s'.berths)
    {
      assert PlacedIn(s.bookings[b], s.berths);
    }
  }

  lemma GenerateKeepsConserved(s: State, id: nat, sch: Schedule)
    requires Conserved(s)
    ensures Conserved(Generate(s, id, sch))
  {
    GenerateKeepsExclusive(s, id, sch);
    if id !in s.schedules {
      var s' := Generate(s, id, sch);
      GenerateKeepsRows(s, id, sch);
      GenerateKeepsPlaced(s, id, sch);
      forall c | c in s'.available
        ensures s'.available[c] == |Free(s'.berths, c.0, c.1)|
      {
        GenerateCounts(s, id, sch, c);
      }
    }
  }

  lemma StepKeepsConserved(s: State, e: Event)
    requires Conserved(s) && WellAddressed(s, e)
    ensures Conserved(Step(s, e))
  {
    match e
    case Generating(id, sch) => GenerateKeepsConserved(s, id, sch);
    case Creating(now, env, user, req) =>
      if CreateOutcome(s, now, env, req).None? {
        CreateKeepsConserved(s, now, env, user, req);
      }
    case Completing(id) => CompleteKeepsConserved(s, id);
    case Failing(id) =>
      if id < |s.bookings| {
        ReleaseKeepsConserved(s, id, Failed);
      }
    case Cancelling(now, id, user, policies) =>
      if CancelOutcome(s, now, id, user, policies).None? {
        ReleaseKeepsConserved(s, id, Cancelled);
      }
    case Expiring(now) =>
      OverdueExactly(s.bookings, now, |s.bookings|);
      ExpireAllKeepsConserved(s, Overdue(s.bookings, now, |s.bookings|));
    case ExpiringListed(id) =>
      if id < |s.bookings| {
        ReleaseKeepsConserved(s, id, Expired);
      }
  }

  /** The counters are those of the schedules and classes, and each is the number of AVAILABLE berths there. */
  ghost predicate CountersExact(s: State) {
    && (forall c :: c in s.available <==> c.0 in s.schedules && c.1 in CLASSES)
    && (forall c :: c in s.available ==> s.available[c] == |Free(s.berths, c.0, c.1)|)
  }

  /** Train conservation, over every run: each counter equals the AVAILABLE berths of its schedule and class. */
  lemma TrainConservation(s: State, evs: seq<Event>)
    requires Empty(s) && Admitted(Step, WellAddressed, s, evs)
    ensures CountersExact(Run(Step, s, evs))
  {
    forall s, e | Conserved(s) && WellAddressed(s, e)
      ensures Conserved(Step(s, e))
    {
      StepKeepsConserved(s, e);
    }
    RunKeeps(Step, WellAddressed, Conserved, s, evs);
  }

  /** The exact demand on payment.failed: it keeps the invariants just when the booking is still active. */
  lemma FailureKeepsInvariantIff(s: State, id: nat)
    requires Conserved(s) && id < |s.bookings|
    ensures Conserved(Fail(s, id)) <==> Active(s.bookings[id])
  {
    if Active(s.bookings[id]) {
      ReleaseKeepsConserved(s, id, Failed);
    } else {
      LateFailureBreaks(s, id);
    }
  }

  /** A failure event for a settled booking either frees someone's berth or counts free berths twice. */
  lemma LateFailureBreaks(s: State, id: nat)
    requires Conserved(s) && id < |s.bookings| && !Active(s.bookings[id])
    ensures !Conserved(Fail(s, id))
  {
    var b := s.bookings[id];
    var s' := Fail(s, id);
    var c := (b.schedule, b.travelClass);
    assert b.seats[0] in b.seats && s.berths[b.seats[0]].schedule == b.schedule;
    assert c in s.available;
    if holder, k: nat :| Holds(s.bookings, holder, k) && k in b.seats {
      assert Holds(s'.bookings, holder, k) && s'.berths[k].status == Available;
    } else {
      assert forall k :: k in b.seats ==> s.berths[k].status == Available;
      assert s'.berths == s.berths;
    }
  }

  /** Taking a free berth of another schedule leaves its counter too high. */
  lemma ForeignSeatUncounted(available: map<(nat, string), int>, berths: seq<Berth>, ids: seq<nat>,
                             schedule: nat, travelClass: string, k: nat)
    requires CountersAgree(available, berths) && k in ids && k < |berths| && berths[k].status == Available
    requires berths[k].schedule != schedule && (berths[k].schedule, berths[k].travelClass) in available
    ensures !CountersAgree(AddAvailable(available, schedule, travelClass, -|ids|),
                           SetStatus(berths, ids, PendingPayment))
  {
    var c := (berths[k].schedule, berths[k].travelClass);
    var free, free' := Free(berths, c.0, c.1), Free(SetStatus(berths, ids, PendingPayment), c.0, c.1);
    assert free' <= free - {k};
    SubsetSize(free', free - {k});
    assert AddAvailable(available, schedule, travelClass, -|ids|)[c] == available[c];
  }

  lemma ForeignSeat(s: State, now: int, env: Env, req: Request) returns (k: nat)
    requires CreateOutcome(s, now, env, req).None? && !SeatsOfSchedule(s, req)
    ensures k in req.seats && k < |s.berths| && s.berths[k].status == Available && s.berths[k].schedule != req.schedule
  {
    AcceptedRequest(s, now, env, req);
    k :| k in req.seats && k < |s.berths| && s.berths[k].schedule != req.schedule;
  }

  lemma ForeignSeatBreaks(s: State, now: int, env: Env, user: nat, req: Request)
    requires Counted(s) && CreateOutcome(s, now, env, req).None? && !SeatsOfSchedule(s, req)
    ensures var s' := Create(s, now, env, user, req); !CountersAgree(s'.available, s'.berths)
  {
    var k := ForeignSeat(s, now, env, req);
    CreatedTables(s, now, env, user, req);
    var b := NewBooking(s.berths, now, env.lag, user, req);
    ForeignSeatUncounted(s.available, s.berths, b.seats, b.schedule, b.travelClass, k);
  }

  /** The exact demand on the seats of a request the code accepts: a berth of another schedule leaves that
      schedule's counter above its free berths. */
  lemma CreateKeepsCountersIff(s: State, now: int, env: Env, user: nat, req: Request)
    requires Conserved(s) && CreateOutcome(s, now, env, req).None?
    ensures Counted(Create(s, now, env, user, req)) <==> SeatsOfSchedule(s, req)
  {
    if SeatsOfSchedule(s, req) {
      CreateKeepsConserved(s, now, env, user, req);
    } else {
      ForeignSeatBreaks(s, now, env, user, req);
    }
  }

  // ---- Repeated deliveries ---------------------------------------------------------------------------

  predicate Settled(s: State, id: nat) {
    id < |s.bookings| && s.bookings[id].status != Pending
  }

  /** Rows are only appended, and a row that changes is no longer pending. */
  predicate OnlySettles(bookings: seq<Booking>, bookings': seq<Booking>) {
    |bookings| <= |bookings'|
    && forall b :: 0 <= b < |bookings| ==> bookings'[b] == bookings[b] || bookings'[b].status != Pending
  }

  lemma CreateOnlySettles(s: State, now: int, env: Env, user: nat, req: Request)
    ensures OnlySettles(s.bookings, Create(s, now, env, user, req).bookings)
  {
  }

  lemma CancelOnlySettles(s: State, now: int, id: nat, user: nat, policies: seq<Refunds.Policy>)
    ensures OnlySettles(s.bookings, Cancel(s, now, id, user, policies).bookings)
  {
  }

  lemma ExpiryOnlySettles(s: State, now: int)
    ensures OnlySettles(s.bookings, ExpiryPass(s, now).bookings)
  {
    OverdueExactly(s.bookings, now, |s.bookings|);
    ExpireAllBookings(s, Overdue(s.bookings, now, |s.bookings|));
  }

  lemma StepOnlySettles(s: State, e: Event)
    ensures OnlySettles(s.bookings, Step(s, e).bookings)
  {
    match e
    case Generating(id, sch) =>
    case Creating(now, env, user, req) => CreateOnlySettles(s, now, env, user, req);
    case Completing(id) =>
    case Failing(id) =>
    case Cancelling(now, id, user, policies) => CancelOnlySettles(s, now, id, user, policies);
    case Expiring(now) => ExpiryOnlySettles(s, now);
    case ExpiringListed(id) =>
  }

  /** Train: repeated payment.completed events after the first change nothing, wherever they fall. */
  lemma CompletedOnce(s: State, id: nat, before: seq<Event>, after: seq<Event>, after': seq<Event>)
    requires id < |Run(Step, s, before).bookings|
    requires Without((e: Event) => e == Completing(id), after) == Without((e: Event) => e == Completing(id), after')
    ensures Run(Step, s, before + ([Completing(id)] + after)) == Run(Step, s, before + ([Completing(id)] + after'))
  {
    var settled := (s: State) => Settled(s, id);
    var repeat := (e: Event) => e == Completing(id);
    forall s, e | settled(s)
      ensures settled(Step(s, e))
    {
      StepOnlySettles(s, e);
    }
    RepeatsVanish(Step, settled, repeat, s, before, Completing(id), after, after');
  }
}
