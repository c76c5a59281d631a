/** What every run of the flight machine keeps: counters that move only with confirmed passengers. */
module FlightSafety {
  import opened Collections
  import opened Runs
  import opened SeatLocks
  import opened FlightBooking

  /** Passengers this booking counts against an instance and class. */
  function Seated(b: Booking, instance: nat, c: Class): nat {
    if b.instance == instance && ClassOf(b.seatClass) == c && b.status == Confirmed then |b.passengers| else 0
  }

  function SeatedSum(bookings: seq<Booking>, instance: nat, c: Class): nat {
    if bookings == [] then 0
    else SeatedSum(bookings[..|bookings| - 1], instance, c) + Seated(bookings[|bookings| - 1], instance, c)
  }

  lemma {:induction false} SumUpdate(bookings: seq<Booking>, id: nat, b': Booking, instance: nat, c: Class)
    requires id < |bookings|
    ensures SeatedSum(bookings[id := b'], instance, c)
         == SeatedSum(bookings, instance, c) - Seated(bookings[id], instance, c) + Seated(b', instance, c)
    decreases |bookings|
  {
    var n := |bookings| - 1;
    if id == n {
      assert bookings[id := b'][..n] == bookings[..n];
    } else {
      assert bookings[id := b'][..n] == bookings[..n][id := b'];
      SumUpdate(bookings[..n], id, b', instance, c);
    }
  }

  lemma SumAppend(bookings: seq<Booking>, b: Booking, instance: nat, c: Class)
    ensures SeatedSum(bookings + [b], instance, c) == SeatedSum(bookings, instance, c) + Seated(b, instance, c)
  {
    assert (bookings + [b])[..|bookings|] == bookings;
  }

  lemma {:induction false} SumSwept(bookings: seq<Booking>, now: int, instance: nat, c: Class)
    ensures SeatedSum(SweepRows(bookings, now), instance, c) == SeatedSum(bookings, instance, c)
    decreases |bookings|
  {
    if bookings != [] {
      var n := |bookings| - 1;
      assert SweepRows(bookings, now)[..n] == SweepRows(bookings[..n], now);
      SumSwept(bookings[..n], now, instance, c);
    }
  }

  /** available and quota, each with the confirmed passengers put back. */
  function Ledger(s: State, instance: nat, c: Class): (int, int)
    requires instance < |s.instances|
  {
    var counts, seated := s.instances[instance].Of(c), SeatedSum(s.bookings, instance, c);
    (counts.available + seated, counts.quota + seated)
  }

  /** The counters move by n and the booking's own contribution by -n. */
  lemma MoveKeepsLedger(s: State, s': State, id: nat, b': Booking, n: int, instance: nat, c: Class)
    requires instance < |s.instances| && id < |s.bookings|
    requires s'.bookings == s.bookings[id := b'] && s'.instances == MoveCounts(s.instances, s.bookings[id], n)
    requires forall i: nat, d: Class :: Seated(b', i, d) - Seated(s.bookings[id], i, d)
                == if i == s.bookings[id].instance && d == ClassOf(s.bookings[id].seatClass) then 0 - n else 0
    ensures |s'.instances| == |s.instances| && Ledger(s', instance, c) == Ledger(s, instance, c)
  {
    SumUpdate(s.bookings, id, b', instance, c);
    assert Seated(b', instance, c) - Seated(s.bookings[id], instance, c)
        == if instance == s.bookings[id].instance && c == ClassOf(s.bookings[id].seatClass) then 0 - n else 0;
  }

  lemma StepKeepsLedger(s: State, e: Event, instance: nat, c: Class)
    requires instance < |s.instances|
    ensures |Step(s, e).instances| == |s.instances| && Ledger(Step(s, e), instance, c) == Ledger(s, instance, c)
  {
    match e
    case Creating(now, env, user, req) => CreateKeepsLedger(s, now, env, user, req, instance, c);
    case Confirming(now, id) => ConfirmKeepsLedger(s, now, id, instance, c);
    case Cancelling(now, id, user) => CancelKeepsLedger(s, now, id, user, instance, c);
    case Sweeping(now) => SumSwept(s.bookings, now, instance, c);
  }

  lemma ConfirmKeepsLedger(s: State, now: int, id: nat, instance: nat, c: Class)
    requires instance < |s.instances|
    ensures |Confirm(s, now, id).instances| == |s.instances|
            && Ledger(Confirm(s, now, id), instance, c) == Ledger(s, instance, c)
  {
    if ConfirmOutcome(s, id).None? {
      var b := s.bookings[id];
      MoveKeepsLedger(s, Confirm(s, now, id), id, b.(status := Confirmed, confirmedAt := Some(now)), -|b.passengers|,
                      instance, c);
    }
  }

  lemma CancelKeepsLedger(s: State, now: int, id: nat, user: nat, instance: nat, c: Class)
    requires instance < |s.instances|
    ensures |Cancel(s, now, id, user).instances| == |s.instances|
            && Ledger(Cancel(s, now, id, user), instance, c) == Ledger(s, instance, c)
  {
    if CancelOutcome(s, id, user).None? {
      var b := s.bookings[id];
      MoveKeepsLedger(s, Cancel(s, now, id, user), id, b.(status := Cancelled, refund := RefundFor(s, now, b)),
                      |b.passengers|, instance, c);
    }
  }

  lemma CreateKeepsLedger(s: State, now: int, env: Env, user: nat, req: Request, instance: nat, c: Class)
    requires instance < |s.instances|
    ensures |Create(s, now, env, user, req).instances| == |s.instances|
            && Ledger(Create(s, now, env, user, req), instance, c) == Ledger(s, instance, c)
  {
    var s' := Create(s, now, env, user, req);
    assert s'.instances == s.instances;
    if EarlyError(s, req).None? {
      var b := NewBooking(s.fares[req.fare].price, now, env.lag, user, req);
      assert s'.bookings == s.bookings || s'.bookings == s.bookings + [b];
      SumAppend(s.bookings, b, instance, c);
    }
  }

  /** Flight conservation, over every run: for each instance and class, available plus confirmed passengers is
      constant, and so is the quota. */
  lemma FlightConservation(s: State, evs: seq<Event>, instance: nat, c: Class)
    requires instance < |s.instances|
    ensures var end := Run(Step, s, evs);
            |end.instances| == |s.instances| && Ledger(end, instance, c) == Ledger(s, instance, c)
  {
    var any := (s: State, e: Event) => true;
    var inv := (t: State) => |t.instances| == |s.instances| && Ledger(t, instance, c) == Ledger(s, instance, c);
    forall t, e | inv(t) && any(t, e)
      ensures inv(Step(t, e))
    {
      StepKeepsLedger(t, e, instance, c);
    }
    AllAdmitted(s, evs);
    RunKeeps(Step, any, inv, s, evs);
  }

  lemma {:induction false} AllAdmitted(s: State, evs: seq<Event>)
    ensures Admitted(Step, (s: State, e: Event) => true, s, evs)
    decreases |evs|
  {
    if evs != [] {
      AllAdmitted(Step(s, evs[0]), evs[1..]);
    }
  }

  // ---- Repeated deliveries ---------------------------------------------------------------------------

  predicate Settled(s: State, id: nat) {
    id < |s.bookings| && s.bookings[id].status != Pending
  }

  lemma StepKeepsSettled(s: State, e: Event, id: nat)
    requires Settled(s, id)
    ensures Settled(Step(s, e), id)
  {
    match e
    case Creating(now, env, user, req) =>
    case Confirming(now, other) =>
    case Cancelling(now, other, user) =>
    case Sweeping(now) =>
  }

  /** Flight: repeated payment.completed events for a booking change nothing after the first. */
  lemma ConfirmedOnce(s: State, now: int, id: nat, before: seq<Event>, after: seq<Event>, after': seq<Event>)
    requires id < |Run(Step, s, before).bookings|
    requires var repeat := (e: Event) => e.Confirming? && e.id == id; Without(repeat, after) == Without(repeat, after')
    ensures Run(Step, s, before + ([Confirming(now, id)] + after))
            == Run(Step, s, before + ([Confirming(now, id)] + after'))
  {
    var settled := (s: State) => Settled(s, id);
    var repeat := (e: Event) => e.Confirming? && e.id == id;
    forall s, e | settled(s)
      ensures settled(Step(s, e))
    {
      StepKeepsSettled(s, e, id);
    }
    RepeatsVanish(Step, settled, repeat, s, before, Confirming(now, id), after, after');
  }
}
