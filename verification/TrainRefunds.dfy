/** What a run of the train machine can pay back. */
module TrainRefunds {
  import opened Collections
  import opened Runs
  import opened SeatLocks
  import opened TrainBooking
  import opened TrainSafety
  import Refunds

  /** The refund row is for a booking that is settled, and pays at most what it cost. */
  predicate RefundSane(s: State, id: nat)
    requires id in s.refunds
  {
    id < |s.bookings| && !Active(s.bookings[id]) && s.refunds[id] <= s.bookings[id].total
  }

  predicate RefundsSane(s: State) {
    forall id :: id in s.refunds ==> RefundSane(s, id)
  }

  /** No policy pays back more than was paid. */
  predicate SanePolicies(s: State, e: Event) {
    e.Cancelling? ==> Refunds.PercentagesSane(e.policies)
  }

  predicate SteadyRow(b: Booking, b': Booking) {
    b'.total == b.total && b'.schedule == b.schedule && b'.user == b.user && (!Active(b) ==> !Active(b'))
  }

  /** No step changes what a booking costs, its user or its departure, or makes a settled booking active. */
  predicate Steady(s: State, s': State) {
    && |s.bookings| <= |s'.bookings|
    && (forall id :: 0 <= id < |s.bookings| ==> SteadyRow(s.bookings[id], s'.bookings[id]))
    && (forall sch :: sch in s.schedules ==> sch in s'.schedules && s'.schedules[sch] == s.schedules[sch])
  }

  lemma {:induction false} ExpireAllFrame(s: State, ids: seq<nat>)
    ensures ExpireAll(s, ids).refunds == s.refunds && ExpireAll(s, ids).schedules == s.schedules
    decreases |ids|
  {
    if ids != [] {
      ExpireAllFrame(s, ids[..|ids| - 1]);
    }
  }

  lemma ExpiryIsSteady(s: State, now: int)
    ensures Steady(s, ExpiryPass(s, now)) && ExpiryPass(s, now).refunds == s.refunds
  {
    var overdue := Overdue(s.bookings, now, |s.bookings|);
    OverdueExactly(s.bookings, now, |s.bookings|);
    ExpireAllBookings(s, overdue);
    ExpireAllFrame(s, overdue);
  }

  lemma CreateIsSteady(s: State, now: int, env: Env, user: nat, req: Request)
    ensures var s' := Create(s, now, env, user, req); Steady(s, s') && s'.refunds == s.refunds
  {
  }

  lemma CancelIsSteady(s: State, now: int, id: nat, user: nat, policies: seq<Refunds.Policy>)
    ensures Steady(s, Cancel(s, now, id, user, policies))
  {
  }

  lemma StepIsSteady(s: State, e: Event)
    ensures Steady(s, Step(s, e))
    ensures !e.Cancelling? ==> Step(s, e).refunds == s.refunds
  {
    match e
    case Generating(id, sch) =>
    case Creating(now, env, user, req) => CreateIsSteady(s, now, env, user, req);
    case Completing(id) =>
    case Failing(id) =>
    case Cancelling(now, id, user, policies) => CancelIsSteady(s, now, id, user, policies);
    case Expiring(now) => ExpiryIsSteady(s, now);
    case ExpiringListed(id) =>
  }

  lemma CancelKeepsSane(s: State, now: int, id: nat, user: nat, policies: seq<Refunds.Policy>)
    requires RefundsSane(s) && Refunds.PercentagesSane(policies)
    ensures RefundsSane(Cancel(s, now, id, user, policies))
  {
    var s' := Cancel(s, now, id, user, policies);
    if CancelOutcome(s, now, id, user, policies).None? {
      var b, p := s.bookings[id], PolicyFor(s, now, s.bookings[id], policies).value;
      Refunds.PercentageBounds(b.total, p.percent, p.percent);
      forall r | r in s'.refunds
        ensures RefundSane(s', r)
      {
        assert r != id ==> RefundSane(s, r);
      }
    }
  }

  lemma StepKeepsSane(s: State, e: Event)
    requires RefundsSane(s) && SanePolicies(s, e)
    ensures RefundsSane(Step(s, e))
  {
    StepIsSteady(s, e);
    if e.Cancelling? {
      CancelKeepsSane(s, e.now, e.id, e.user, e.policies);
    } else {
      forall r | r in Step(s, e).refunds
        ensures RefundSane(Step(s, e), r)
      {
        assert RefundSane(s, r);
      }
    }
  }

  /** Over every run each refund row pays at most what its booking cost, and its booking is settled for good. */
  lemma RefundsBounded(s: State, evs: seq<Event>)
    requires s.refunds == map[] && Admitted(Step, SanePolicies, s, evs)
    ensures RefundsSane(Run(Step, s, evs))
  {
    forall s, e | RefundsSane(s) && SanePolicies(s, e)
      ensures RefundsSane(Step(s, e))
    {
      StepKeepsSane(s, e);
    }
    RunKeeps(Step, SanePolicies, RefundsSane, s, evs);
  }

  /** So it is written once: whatever happens later, the amount stands. */
  lemma {:induction false} RefundStands(s: State, id: nat, evs: seq<Event>)
    requires id in s.refunds && id < |s.bookings| && !Active(s.bookings[id])
    ensures id in Run(Step, s, evs).refunds && Run(Step, s, evs).refunds[id] == s.refunds[id]
    decreases |evs|
  {
    if evs != [] {
      StepIsSteady(s, evs[0]);
      if evs[0].Cancelling? {
        OthersCancelled(s, evs[0].now, evs[0].id, evs[0].user, evs[0].policies, id);
      }
      RefundStands(Step(s, evs[0]), id, evs[1..]);
    }
  }

  lemma OthersCancelled(s: State, now: int, other: nat, user: nat, policies: seq<Refunds.Policy>, id: nat)
    requires id in s.refunds && id < |s.bookings| && !Active(s.bookings[id])
    ensures var s' := Cancel(s, now, other, user, policies); id in s'.refunds && s'.refunds[id] == s.refunds[id]
  {
  }

  lemma {:induction false} RunIsSteady(s: State, evs: seq<Event>)
    ensures Steady(s, Run(Step, s, evs))
    decreases |evs|
  {
    if evs != [] {
      StepIsSteady(s, evs[0]);
      RunIsSteady(Step(s, evs[0]), evs[1..]);
    }
  }

  /** What cancelling the booking at this moment would pay. */
  function RefundNow(s: State, now: int, id: nat, policies: seq<Refunds.Policy>): Option<nat> {
    if id < |s.bookings| && s.bookings[id].schedule in s.schedules then
      Refunds.TrainRefund(s.bookings[id].total, policies, s.schedules[s.bookings[id].schedule].departureAt - now)
    else None
  }

  lemma CancelPays(s: State, now: int, id: nat, user: nat, policies: seq<Refunds.Policy>)
    requires CancelOutcome(s, now, id, user, policies).None?
    ensures var refunds := Cancel(s, now, id, user, policies).refunds;
            id in refunds && RefundNow(s, now, id, policies) == Some(refunds[id])
  {
  }

  lemma LaterPaysLess(s: State, end: State, now: int, later: int, id: nat, policies: seq<Refunds.Policy>)
    requires Refunds.PercentagesFall(policies) && now <= later && Steady(s, end)
    requires RefundNow(s, now, id, policies).Some? && RefundNow(end, later, id, policies).Some?
    ensures RefundNow(end, later, id, policies).value <= RefundNow(s, now, id, policies).value
  {
    var b := s.bookings[id];
    var departure := s.schedules[b.schedule].departureAt;
    assert SteadyRow(b, end.bookings[id]);
    Refunds.TrainRefundFalls(b.total, policies, departure - later, departure - now);
  }

  /** Waiting never pays: whatever happens in between, cancelling later pays no more than cancelling now. */
  lemma WaitingNeverPays(s: State, evs: seq<Event>, now: int, later: int, id: nat, user: nat,
                         policies: seq<Refunds.Policy>)
    requires Refunds.PercentagesFall(policies) && now <= later
    requires CancelOutcome(s, now, id, user, policies).None?
    requires CancelOutcome(Run(Step, s, evs), later, id, user, policies).None?
    ensures var soon, late := Cancel(s, now, id, user, policies).refunds,
                              Cancel(Run(Step, s, evs), later, id, user, policies).refunds;
            id in soon && id in late && late[id] <= soon[id]
  {
    RunIsSteady(s, evs);
    CancelPays(s, now, id, user, policies);
    CancelPays(Run(Step, s, evs), later, id, user, policies);
    LaterPaysLess(s, Run(Step, s, evs), now, later, id, policies);
  }
}
