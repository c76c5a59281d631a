/** The bus profit ledger: what it equals after every run, and why a loss written after departure stays sound. */
module BusLedger {
  import opened Collections
  import opened Runs
  import opened SeatLocks
  import opened BusBooking
  import opened BusSafety
  import Refunds

  /** What one booking is worth to a trip: its price while confirmed, what was kept of it once cancelled
      after confirmation, nothing otherwise. */
  function Worth(b: Booking, trip: nat): int {
    if b.trip != trip then 0
    else if b.status == Confirmed then b.total
    else if b.status == Cancelled && b.wasConfirmed then b.total - b.refund
    else 0
  }

  function SumWorth(bookings: seq<Booking>, trip: nat): int {
    if bookings == [] then 0 else SumWorth(bookings[..|bookings| - 1], trip) + Worth(bookings[|bookings| - 1], trip)
  }

  function ConfirmedTotal(bookings: seq<Booking>, trip: nat): nat {
    if bookings == [] then 0
    else
      var b := bookings[|bookings| - 1];
      ConfirmedTotal(bookings[..|bookings| - 1], trip) + if b.trip == trip && b.status == Confirmed then b.total else 0
  }

  /** Confirmation times match statuses, and nobody was paid back more than they paid. */
  predicate Sound(b: Booking) {
    && (b.status == Pending ==> !b.wasConfirmed)
    && (b.status == Confirmed ==> b.wasConfirmed)
    && (b.status == Cancelled ==> b.refund <= b.total)
  }

  predicate AllSound(bookings: seq<Booking>) {
    forall i :: 0 <= i < |bookings| ==> Sound(bookings[i])
  }

  predicate Balanced(accounts: map<nat, Account>, bookings: seq<Booking>) {
    forall t :: t in accounts ==> accounts[t].profit == SumWorth(bookings, t)
  }

  lemma {:induction false} SumUpdate(bookings: seq<Booking>, id: nat, b': Booking, trip: nat)
    requires id < |bookings|
    ensures SumWorth(bookings[id := b'], trip) == SumWorth(bookings, trip) - Worth(bookings[id], trip) + Worth(b', trip)
    decreases |bookings|
  {
    var n := |bookings| - 1;
    if id == n {
      assert bookings[id := b'][..n] == bookings[..n];
    } else {
      assert bookings[id := b'][..n] == bookings[..n][id := b'];
      SumUpdate(bookings[..n], id, b', trip);
    }
  }

  lemma SumAppend(bookings: seq<Booking>, b: Booking, trip: nat)
    ensures SumWorth(bookings + [b], trip) == SumWorth(bookings, trip) + Worth(b, trip)
  {
    assert (bookings + [b])[..|bookings|] == bookings;
  }

  lemma {:induction false} SumSame(bookings: seq<Booking>, bookings': seq<Booking>, trip: nat)
    requires |bookings| == |bookings'|
    requires forall i :: 0 <= i < |bookings| ==> Worth(bookings[i], trip) == Worth(bookings'[i], trip)
    ensures SumWorth(bookings, trip) == SumWorth(bookings', trip)
    decreases |bookings|
  {
    if bookings != [] {
      SumSame(bookings[..|bookings| - 1], bookings'[..|bookings'| - 1], trip);
    }
  }

  /** No term is negative, so the ledger never shows less than the confirmed bookings bring in. */
  lemma {:induction false} SumCoversConfirmed(bookings: seq<Booking>, trip: nat)
    requires AllSound(bookings)
    ensures SumWorth(bookings, trip) >= ConfirmedTotal(bookings, trip)
    ensures forall i :: 0 <= i < |bookings| ==> Worth(bookings[i], trip) >= 0
    decreases |bookings|
  {
    if bookings != [] {
      assert Sound(bookings[|bookings| - 1]);
      SumCoversConfirmed(bookings[..|bookings| - 1], trip);
      forall i | 0 <= i < |bookings|
        ensures Worth(bookings[i], trip) >= 0
      {
        assert Sound(bookings[i]);
      }
    }
  }

  // ---- Steps -----------------------------------------------------------------------------------------

  lemma ConfirmKeepsBalance(s: State, now: int, id: nat, user: nat)
    requires AllSound(s.bookings) && Balanced(s.accounts, s.bookings)
    ensures var s' := Confirm(s, now, id, user); AllSound(s'.bookings) && Balanced(s'.accounts, s'.bookings)
  {
    var out := ConfirmOutcome(s, now, id, user);
    if out.None? || out == Some(TimedOut) {
      var s' := Confirm(s, now, id, user);
      assert Sound(s.bookings[id]);
      forall t | t in s'.accounts
        ensures s'.accounts[t].profit == SumWorth(s'.bookings, t)
      {
        SumUpdate(s.bookings, id, s'.bookings[id], t);
      }
    }
  }

  lemma UndoKeepsBalance(s: State, now: int, id: nat, refund: nat)
    requires AllSound(s.bookings) && Balanced(s.accounts, s.bookings)
    requires id < |s.bookings| && Active(s.bookings[id]) && refund <= s.bookings[id].total
    ensures var s' := Undo(s, now, id, refund); AllSound(s'.bookings) && Balanced(s'.accounts, s'.bookings)
  {
    var s' := Undo(s, now, id, refund);
    assert Sound(s.bookings[id]);
    forall t | t in s'.accounts
      ensures s'.accounts[t].profit == SumWorth(s'.bookings, t)
    {
      SumUpdate(s.bookings, id, s'.bookings[id], t);
    }
  }

  lemma SweepKeepsBalance(s: State, now: int)
    requires AllSound(s.bookings) && Balanced(s.accounts, s.bookings)
    ensures var s' := Sweep(s, now); AllSound(s'.bookings) && Balanced(s'.accounts, s'.bookings)
  {
    var bookings' := SweepRows(s.bookings, now);
    forall i | 0 <= i < |bookings'|
      ensures Sound(bookings'[i]) && forall t :: Worth(bookings'[i], t) == Worth(s.bookings[i], t)
    {
      assert Sound(s.bookings[i]);
    }
    forall t | t in s.accounts
      ensures s.accounts[t].profit == SumWorth(bookings', t)
    {
      SumSame(s.bookings, bookings', t);
    }
  }

  lemma CreateKeepsBalance(cfg: Config, s: State, now: int, env: Env, user: nat, req: Request)
    requires AllSound(s.bookings) && Balanced(s.accounts, s.bookings)
    ensures var s' := Create(cfg, s, now, env, user, req); AllSound(s'.bookings) && Balanced(s'.accounts, s'.bookings)
  {
    if EarlyError(s, req).None? {
      var b := NewBooking(cfg, HalfPrices(s.seats, s.fares[req.fare], req.passengers), now, env.lag, user, req);
      forall t | t in s.accounts
        ensures s.accounts[t].profit == SumWorth(s.bookings + [b], t)
      {
        SumAppend(s.bookings, b, t);
      }
    }
  }

  /** No policy pays back more than was paid. */
  predicate SanePolicies(s: State, e: Event) {
    e.Cancelling? ==> Refunds.PercentagesSane(e.policies)
  }

  lemma StepKeepsBalance(cfg: Config, s: State, e: Event)
    requires AllSound(s.bookings) && Balanced(s.accounts, s.bookings) && SanePolicies(s, e)
    ensures var s' := Step(cfg, s, e); AllSound(s'.bookings) && Balanced(s'.accounts, s'.bookings)
  {
    match e
    case Creating(now, env, user, req) => CreateKeepsBalance(cfg, s, now, env, user, req);
    case Confirming(now, id, user) => ConfirmKeepsBalance(s, now, id, user);
    case Cancelling(now, id, caller, policies) =>
      if CancelOutcome(s, now, id, caller).None? {
        var b := s.bookings[id];
        Refunds.BusRefundBounded(b.total, b.status == Confirmed, s.fares[b.fare].refundable, policies,
                                 Refunds.CeilHours(s.departures[b.trip] - now));
        UndoKeepsBalance(s, now, id, RefundFor(s, now, id, policies));
      }
    case Sweeping(now) => SweepKeepsBalance(s, now);
    case Finalizing(now) =>
  }

  // ---- Runs ------------------------------------------------------------------------------------------

  /** The bus ledger, over every run from empty books: an account's profit is the worth of its trip's bookings,
      through both cancellation paths, and never less than the confirmed ones bring in. */
  lemma LedgerBalances(cfg: Config, s: State, evs: seq<Event>)
    requires s.bookings == [] && forall t :: t in s.accounts ==> s.accounts[t].profit == 0
    requires Admitted((s, e) => Step(cfg, s, e), SanePolicies, s, evs)
    ensures var end := Run((s, e) => Step(cfg, s, e), s, evs);
            forall t :: t in end.accounts ==>
              end.accounts[t].profit == SumWorth(end.bookings, t)
              && end.accounts[t].profit >= ConfirmedTotal(end.bookings, t)
  {
    var step := (s, e) => Step(cfg, s, e);
    var inv := (s: State) => AllSound(s.bookings) && Balanced(s.accounts, s.bookings);
    forall s, e | inv(s) && SanePolicies(s, e)
      ensures inv(step(s, e))
    {
      StepKeepsBalance(cfg, s, e);
    }
    RunKeeps(step, SanePolicies, inv, s, evs);
    var end := Run(step, s, evs);
    forall t | t in end.accounts
      ensures end.accounts[t].profit >= ConfirmedTotal(end.bookings, t)
    {
      SumCoversConfirmed(end.bookings, t);
    }
  }

  /** The departure a cancellation is measured against is no later than the one its account was opened with. */
  predicate DeparturesAgree(s: State) {
    forall t :: t in s.accounts && t in s.departures ==> s.departures[t] <= s.accounts[t].departure
  }

  function Shortfall(a: Account): nat {
    if a.spend - a.profit < 0 then 0 else a.spend - a.profit
  }

  /** A closed account has departed and its loss covers the shortfall. */
  predicate CoveredAt(s: State, clock: int, t: nat)
    requires t in s.accounts
  {
    s.accounts[t].finalized ==> s.accounts[t].departure <= clock && s.accounts[t].loss >= Shortfall(s.accounts[t])
  }

  predicate LossCovers(t: Timed) {
    DeparturesAgree(t.state) && forall trip :: trip in t.state.accounts ==> CoveredAt(t.state, t.clock, trip)
  }

  predicate ClockRuns(t: Timed, e: Event) {
    t.clock <= e.now
  }

  /** What a step may do to an account: nothing to its terms, and once it is closed nothing but profit. */
  predicate OnlyGrows(a: Account, a': Account) {
    a'.departure == a.departure && a'.spend == a.spend
    && (a.finalized ==> a'.finalized && a'.loss == a.loss && a'.profit >= a.profit)
  }

  lemma StepOnlyGrows(cfg: Config, t: Timed, e: Event, trip: nat)
    requires DeparturesAgree(t.state) && ClockRuns(t, e) && trip in t.state.accounts
             && CoveredAt(t.state, t.clock, trip)
    ensures var s' := Step(cfg, t.state, e); trip in s'.accounts && OnlyGrows(t.state.accounts[trip], s'.accounts[trip])
    ensures Step(cfg, t.state, e).departures == t.state.departures
    ensures CoveredAt(Step(cfg, t.state, e), e.now, trip)
  {
    match e
    case Creating(now, env, user, req) =>
    case Confirming(now, id, user) =>
    case Cancelling(now, id, caller, policies) =>
      if CancelOutcome(t.state, now, id, caller).None? {
        Refunds.CancellationWindows(t.state.departures[t.state.bookings[id].trip] - now);
        assert t.state.bookings[id].trip == trip ==> !t.state.accounts[trip].finalized;
      }
    case Sweeping(now) =>
    case Finalizing(now) =>
  }

  lemma StepKeepsCover(cfg: Config, t: Timed, e: Event)
    requires LossCovers(t) && ClockRuns(t, e)
    ensures LossCovers(TimedStep(cfg)(t, e))
  {
    var s' := Step(cfg, t.state, e);
    StepKeepsAccounts(cfg, t.state, e);
    forall trip | trip in s'.accounts
      ensures CoveredAt(s', e.now, trip) && s'.accounts[trip].departure == t.state.accounts[trip].departure
    {
      StepOnlyGrows(cfg, t, e, trip);
    }
  }

  lemma StepKeepsAccounts(cfg: Config, s: State, e: Event)
    ensures Step(cfg, s, e).accounts.Keys == s.accounts.Keys && Step(cfg, s, e).departures == s.departures
  {
    match e
    case Creating(now, env, user, req) =>
    case Confirming(now, id, user) =>
    case Cancelling(now, id, caller, policies) =>
      assert CancelOutcome(s, now, id, caller).None? ==>
        Cancel(s, now, id, caller, policies) == Undo(s, now, id, RefundFor(s, now, id, policies));
    case Sweeping(now) =>
    case Finalizing(now) =>
  }

  /** The frozen loss stays sound: in every later state it covers max(0, spend - profit). */
  lemma FrozenLossSound(cfg: Config, s: State, start: int, evs: seq<Event>)
    requires DeparturesAgree(s) && forall t :: t in s.accounts ==> !s.accounts[t].finalized
    requires Admitted(TimedStep(cfg), ClockRuns, Timed(s, start), evs)
    ensures var end := Run(TimedStep(cfg), Timed(s, start), evs).state;
            forall t :: t in end.accounts && end.accounts[t].finalized ==>
              end.accounts[t].loss >= Shortfall(end.accounts[t])
  {
    forall t, e | LossCovers(t) && ClockRuns(t, e)
      ensures LossCovers(TimedStep(cfg)(t, e))
    {
      StepKeepsCover(cfg, t, e);
    }
    RunKeeps(TimedStep(cfg), ClockRuns, LossCovers, Timed(s, start), evs);
    var end := Run(TimedStep(cfg), Timed(s, start), evs);
    assert forall t :: t in end.state.accounts ==> CoveredAt(end.state, end.clock, t);
  }

  /** From any reachable point on, a closed account keeps its loss and its profit only grows. */
  lemma ClosedStaysClosed(cfg: Config, t0: Timed, evs: seq<Event>, trip: nat)
    requires LossCovers(t0) && trip in t0.state.accounts && t0.state.accounts[trip].finalized
    requires Admitted(TimedStep(cfg), ClockRuns, t0, evs)
    ensures var end := Run(TimedStep(cfg), t0, evs).state;
            trip in end.accounts && OnlyGrows(t0.state.accounts[trip], end.accounts[trip])
  {
    var a := t0.state.accounts[trip];
    var inv := (t: Timed) => LossCovers(t) && trip in t.state.accounts && OnlyGrows(a, t.state.accounts[trip]);
    forall t, e | inv(t) && ClockRuns(t, e)
      ensures inv(TimedStep(cfg)(t, e))
    {
      StepKeepsCover(cfg, t, e);
      StepOnlyGrows(cfg, t, e, trip);
    }
    RunKeeps(TimedStep(cfg), ClockRuns, inv, t0, evs);
  }
}
