/** Cancellation policies and refund arithmetic of the three services.
    Money is in paise, percentages in basis points, times in milliseconds. */
module Refunds {
  import opened Collections

  const HOUR: int := 3_600_000

  datatype Policy = Policy(threshold: int, percent: nat, fee: int, active: bool)

  predicate Covers(p: Policy, hours: int) {
    p.active && p.threshold <= hours
  }

  /** The covering row with the greatest threshold, the earliest of equals. */
  function ActivePolicy(ps: seq<Policy>, hours: int): (r: Option<Policy>)
    ensures r.None? ==> forall q :: q in ps ==> !Covers(q, hours)
    ensures r.Some? ==> r.value in ps && Covers(r.value, hours)
    ensures r.Some? ==> forall q :: q in ps && Covers(q, hours) ==> q.threshold <= r.value.threshold
  {
    if ps == [] then None
    else
      var r := ActivePolicy(ps[..|ps| - 1], hours);
      var p := ps[|ps| - 1];
      assert ps == ps[..|ps| - 1] + [p];
      if Covers(p, hours) && (r.None? || r.value.threshold < p.threshold) then Some(p) else r
  }

  /** Widening the window keeps the pick or moves it to a strictly higher threshold. */
  lemma {:induction false} ActivePolicyMonotone(ps: seq<Policy>, h: int, h': int)
    requires h <= h' && ActivePolicy(ps, h).Some?
    ensures ActivePolicy(ps, h').Some?
    ensures var p, p' := ActivePolicy(ps, h).value, ActivePolicy(ps, h').value;
            p' == p || p.threshold < p'.threshold
    decreases |ps|
  {
    var init, last := ps[..|ps| - 1], ps[|ps| - 1];
    assert ps == init + [last];
    if ActivePolicy(init, h).Some? {
      ActivePolicyMonotone(init, h, h');
    }
  }

  /** The row a cancellation at this many hours goes by: active, covering, and of the greatest such threshold. */
  predicate Applies(ps: seq<Policy>, hours: int, p: Policy) {
    && p in ps && p.active && p.threshold <= hours
    && forall q :: q in ps && q.active && q.threshold <= hours ==> q.threshold <= p.threshold
  }

  /** Some row is found exactly when an active one covers the time left, and then it is one that applies. */
  lemma PolicyFound(ps: seq<Policy>, hours: int)
    ensures ActivePolicy(ps, hours).Some? <==> exists q :: q in ps && q.active && q.threshold <= hours
    ensures ActivePolicy(ps, hours).Some? ==> Applies(ps, hours, ActivePolicy(ps, hours).value)
  {
    assert forall q :: q in ps ==> (Covers(q, hours) <==> q.active && q.threshold <= hours);
  }

  /** Hours rounded up, as both bus cancellation paths count them. */
  function CeilHours(ms: int): int {
    (ms + HOUR - 1) / HOUR
  }

  /** Hours cut towards zero, as the train path counts them. */
  function TruncHours(ms: int): int {
    if ms >= 0 then ms / HOUR else -((-ms) / HOUR)
  }

  /** The bus hours reach zero exactly at departure; the train hours go negative only an hour after it. */
  lemma CancellationWindows(ms: int)
    ensures CeilHours(ms) <= 0 <==> ms <= 0
    ensures TruncHours(ms) < 0 <==> ms <= -HOUR
  {
  }

  /** The hour counts against the clock: the bus counts every started hour, the train only full ones. */
  lemma HoursTold(ms: int)
    ensures HOUR * (CeilHours(ms) - 1) < ms <= HOUR * CeilHours(ms)
    ensures ms >= 0 ==> HOUR * TruncHours(ms) <= ms < HOUR * (TruncHours(ms) + 1)
    ensures ms <= 0 ==> HOUR * (TruncHours(ms) - 1) < ms <= HOUR * TruncHours(ms)
  {
  }

  predicate PercentagesSane(ps: seq<Policy>) {
    forall p :: p in ps ==> p.percent <= 10_000
  }

  function Percentage(total: nat, percent: nat): nat {
    RoundDiv(total * percent, 10_000)
  }

  lemma PercentageBounds(total: nat, p: nat, p': nat)
    requires p <= p'
    ensures Percentage(total, p) <= Percentage(total, p')
    ensures p <= 10_000 ==> Percentage(total, p) <= total
    ensures Percentage(total, 0) == 0
  {
    ScaleOrder(total, p, p');
    RoundDivMonotone(total * p, total * p', 10_000);
    if p <= 10_000 {
      ScaleOrder(total, p, 10_000);
      RoundDivMonotone(total * p, total * 10_000, 10_000);
      RoundDivExact(total, 10_000);
    }
  }

  /** To within half a paisa this is percent, in basis points, of the total. */
  predicate IsShare(amount: int, total: nat, percent: nat) {
    -10_000 <= 20_000 * amount - 2 * (total * percent) <= 10_000
  }

  lemma PercentageIsShare(total: nat, percent: nat)
    ensures IsShare(Percentage(total, percent), total, percent)
  {
  }

  /** A share of the total less the fee, never below nothing. */
  predicate IsShareLess(amount: int, total: nat, percent: nat, fee: int) {
    if fee <= 0 then IsShare(amount, total, percent)
    else (amount > 0 && IsShare(amount + fee, total, percent)) || (amount == 0 && AtMostShare(fee, total, percent))
  }

  /** The share does not exceed the fee, but for rounding. */
  predicate AtMostShare(fee: int, total: nat, percent: nat) {
    2 * (total * percent) <= 20_000 * fee + 10_000
  }

  /** What a bus cancellation pays back. */
  function BusRefund(total: nat, confirmed: bool, refundable: bool, ps: seq<Policy>, hours: int): nat {
    if !confirmed then 0
    else match ActivePolicy(ps, hours)
      case None => 0
      case Some(p) =>
        var gross := Percentage(total, if refundable then p.percent else 0);
        if p.fee > 0 then (if gross > p.fee then gross - p.fee else 0) else gross
  }

  /** The statements both bus paths share, from the policy row to the amount. */
  method ComputeBusRefund(total: nat, confirmed: bool, refundable: bool, ps: seq<Policy>, hours: int)
    returns (refund: nat)
    ensures refund == BusRefund(total, confirmed, refundable, ps, hours)
    ensures PercentagesSane(ps) ==> refund <= total
  {
    var found := ActivePolicy(ps, hours);
    var policy := if found.Some? then found.value else Policy(0, 0, 0, true);
    var percent := policy.percent;
    if !refundable && confirmed {
      percent := 0;
    }
    PercentageBounds(total, 0, percent);
    refund := Percentage(total, percent);
    if policy.fee > 0 {
      if refund > policy.fee {
        refund := refund - policy.fee;
      } else {
        refund := 0;
      }
    }
    if !confirmed {
      refund := 0;
    }
    if PercentagesSane(ps) {
      BusRefundBounded(total, confirmed, refundable, ps, hours);
    }
  }

  lemma BusRefundBounded(total: nat, confirmed: bool, refundable: bool, ps: seq<Policy>, hours: int)
    requires PercentagesSane(ps)
    ensures BusRefund(total, confirmed, refundable, ps, hours) <= total
  {
    match ActivePolicy(ps, hours)
    case None =>
    case Some(p) => PercentageBounds(total, if refundable then p.percent else 0, 10_000);
  }

  /** The bus refund, told without computing it: nothing for unpaid bookings, non-refundable fares and times no row
      covers; otherwise the applying row's share of the total less its fee. */
  lemma BusRefundTold(total: nat, confirmed: bool, refundable: bool, ps: seq<Policy>, hours: int)
    ensures var refund := BusRefund(total, confirmed, refundable, ps, hours);
            if !confirmed || !refundable || !exists q :: q in ps && q.active && q.threshold <= hours then refund == 0
            else exists p :: Applies(ps, hours, p) && IsShareLess(refund, total, p.percent, p.fee)
  {
    PolicyFound(ps, hours);
    var refund := BusRefund(total, confirmed, refundable, ps, hours);
    PercentageBounds(total, 0, 0);
    if confirmed && refundable && ActivePolicy(ps, hours).Some? {
      var p := ActivePolicy(ps, hours).value;
      PercentageIsShare(total, p.percent);
      assert IsShareLess(refund, total, p.percent, p.fee);
    }
  }

  /** Later thresholds never pay a lower percentage, nor, above 0%, charge a higher fee. */
  predicate TableFalls(ps: seq<Policy>) {
    forall p, q :: p in ps && q in ps && p.active && q.active && p.threshold < q.threshold ==>
      p.percent <= q.percent && (p.percent > 0 && q.fee > 0 ==> q.fee <= p.fee)
  }

  /** The bus refund never grows as departure nears. */
  lemma BusRefundFalls(total: nat, confirmed: bool, refundable: bool, ps: seq<Policy>, left: int, left': int)
    requires TableFalls(ps) && left <= left'
    ensures BusRefund(total, confirmed, refundable, ps, CeilHours(left))
         <= BusRefund(total, confirmed, refundable, ps, CeilHours(left'))
  {
    var h, h' := CeilHours(left), CeilHours(left');
    if confirmed && refundable && ActivePolicy(ps, h).Some? {
      ActivePolicyMonotone(ps, h, h');
      var p, p' := ActivePolicy(ps, h).value, ActivePolicy(ps, h').value;
      PercentageBounds(total, p.percent, p'.percent);
      PercentageBounds(total, 0, 0);
    } else {
      PercentageBounds(total, 0, 0);
    }
  }

  /** A fee that rises with the threshold is enough to make the refund rise as departure nears. */
  lemma RisingFeeBreaksFall()
    ensures var ps := [Policy(24, 9_000, 5_000, true), Policy(0, 9_000, 0, true)];
            BusRefund(10_000, true, true, ps, CeilHours(25 * HOUR)) < BusRefund(10_000, true, true, ps, CeilHours(HOUR))
  {
    var a, b := Policy(24, 9_000, 5_000, true), Policy(0, 9_000, 0, true);
    var ps := [a, b];
    assert ps[..1] == [a] && ps[..1][..0] == [];
    assert ActivePolicy([a], 25) == Some(a) && ActivePolicy(ps, 25) == Some(a);
    assert ActivePolicy([a], 1) == None && ActivePolicy(ps, 1) == Some(b);
    assert Percentage(10_000, 9_000) == 9_000;
  }

  /** The rows the bus service ships. */
  function ShippedPolicies(): seq<Policy> {
    [Policy(24, 9_000, 1_500, true), Policy(12, 7_500, 2_500, true), Policy(6, 5_000, 5_000, true),
     Policy(2, 2_500, 7_500, true), Policy(0, 0, 0, true)]
  }

  /** The row that applies at each number of hours left. */
  lemma ShippedTariff(hours: int)
    ensures ActivePolicy(ShippedPolicies(), hours) ==
              if hours < 0 then None
              else if hours < 2 then Some(Policy(0, 0, 0, true))
              else if hours < 6 then Some(Policy(2, 2_500, 7_500, true))
              else if hours < 12 then Some(Policy(6, 5_000, 5_000, true))
              else if hours < 24 then Some(Policy(12, 7_500, 2_500, true))
              else Some(Policy(24, 9_000, 1_500, true))
  {
    var ps := ShippedPolicies();
    PolicyFound(ps, hours);
    assert forall p :: p in ps ==> p == ps[0] || p == ps[1] || p == ps[2] || p == ps[3] || p == ps[4];
    assert ps[0] in ps && ps[1] in ps && ps[2] in ps && ps[3] in ps && ps[4] in ps;
  }

  lemma ShippedPoliciesFall()
    ensures TableFalls(ShippedPolicies()) && PercentagesSane(ShippedPolicies())
  {
    var ps := ShippedPolicies();
    forall p, q | p in ps && q in ps && p.threshold < q.threshold
      ensures p.percent <= q.percent && (p.percent > 0 && q.fee > 0 ==> q.fee <= p.fee)
    {
      var i :| 0 <= i < |ps| && ps[i] == p;
      var j :| 0 <= j < |ps| && ps[j] == q;
    }
  }

  /** What a train cancellation pays back: the policy's percentage, without a fee, under any covering policy. */
  function TrainRefund(total: nat, ps: seq<Policy>, left: int): Option<nat> {
    match ActivePolicy(ps, TruncHours(left))
    case None => None
    case Some(p) => Some(Percentage(total, p.percent))
  }

  /** Later thresholds never pay a lower percentage. */
  predicate PercentagesFall(ps: seq<Policy>) {
    forall p, q :: p in ps && q in ps && p.active && q.active && p.threshold < q.threshold ==> p.percent <= q.percent
  }

  lemma TruncHoursMonotone(left: int, left': int)
    requires left <= left'
    ensures TruncHours(left) <= TruncHours(left')
  {
  }

  /** The train refund never grows as departure nears, and is refused only once it has been refused. */
  lemma TrainRefundFalls(total: nat, ps: seq<Policy>, left: int, left': int)
    requires PercentagesFall(ps) && left <= left' && TrainRefund(total, ps, left).Some?
    ensures TrainRefund(total, ps, left').Some?
    ensures TrainRefund(total, ps, left).value <= TrainRefund(total, ps, left').value
  {
    TruncHoursMonotone(left, left');
    var h, h' := TruncHours(left), TruncHours(left');
    ActivePolicyMonotone(ps, h, h');
    PercentageBounds(total, ActivePolicy(ps, h).value.percent, ActivePolicy(ps, h').value.percent);
  }

  /** The train refund, told without computing it. */
  lemma TrainRefundTold(total: nat, ps: seq<Policy>, left: int)
    ensures var refund, hours := TrainRefund(total, ps, left), TruncHours(left);
            && (refund.Some? <==> exists q :: q in ps && q.active && q.threshold <= hours)
            && (refund.Some? ==> exists p :: Applies(ps, hours, p) && IsShare(refund.value, total, p.percent))
  {
    PolicyFound(ps, TruncHours(left));
    if ActivePolicy(ps, TruncHours(left)).Some? {
      PercentageIsShare(total, ActivePolicy(ps, TruncHours(left)).value.percent);
    }
  }

  /** The rows the train service ships. */
  function TrainPolicies(): seq<Policy> {
    [Policy(168, 9_000, 0, true), Policy(48, 5_000, 0, true), Policy(0, 0, 0, true)]
  }

  /** They pay less and less, never more than the price, and cover a cancellation until exactly an hour after
      departure. */
  lemma TrainPoliciesCover(total: nat, left: int)
    ensures PercentagesFall(TrainPolicies()) && PercentagesSane(TrainPolicies())
    ensures TrainRefund(total, TrainPolicies(), left).Some? <==> left > -HOUR
  {
    var ps := TrainPolicies();
    assert forall p :: p in ps ==> p == ps[0] || p == ps[1] || p == ps[2];
    assert Covers(ps[2], TruncHours(left)) <==> left > -HOUR;
    assert ps[2] in ps;
  }

  /** By the clock: 90% up to a week before departure, 50% up to two days before, and after that nothing. */
  lemma ShippedTrainTariff(total: nat, left: int)
    requires left > -HOUR
    ensures var refund := TrainRefund(total, TrainPolicies(), left);
            var percent := if left >= 168 * HOUR then 9_000 else if left >= 48 * HOUR then 5_000 else 0;
            refund.Some? && IsShare(refund.value, total, percent)
  {
    var ps, hours := TrainPolicies(), TruncHours(left);
    TrainRefundTold(total, ps, left);
    TrainPoliciesCover(total, left);
    assert forall p :: p in ps ==> p == ps[0] || p == ps[1] || p == ps[2];
    assert ps[0] in ps && ps[1] in ps && ps[2] in ps;
    assert hours >= 168 <==> left >= 168 * HOUR;
    assert hours >= 48 <==> left >= 48 * HOUR;
  }

  /** What a flight cancellation pays back; sinceConfirmed is None when the row has no confirmation time. */
  function FlightRefund(total: nat, sinceConfirmed: Option<int>, left: int, refundable: bool, fee: nat,
                        passengers: nat): nat
  {
    if sinceConfirmed.Some? && sinceConfirmed.value <= 2 * HOUR then total
    else if !refundable then 0
    else
      var percent := if left >= 72 * HOUR then 60 else if left >= 4 * HOUR then 25 else 0;
      var hundredths := total * percent - 100 * (fee * passengers);
      if hundredths < 0 then 0 else RoundDiv(hundredths, 100)
  }

  lemma FlightRefundBounded(total: nat, sinceConfirmed: Option<int>, left: int, refundable: bool, fee: nat,
                            passengers: nat)
    ensures FlightRefund(total, sinceConfirmed, left, refundable, fee, passengers) <= total
  {
    var percent := if left >= 72 * HOUR then 60 else if left >= 4 * HOUR then 25 else 0;
    var hundredths := total * percent - 100 * (fee * passengers);
    if hundredths >= 0 {
      assert total * percent <= total * 100;
      RoundDivMonotone(hundredths, total * 100, 100);
      RoundDivExact(total, 100);
    }
  }

  /** Percent paid back by the time left. */
  predicate FlightTier(left: int, percent: nat) {
    match percent
    case 60 => left >= 72 * HOUR
    case 25 => 4 * HOUR <= left < 72 * HOUR
    case 0 => left < 4 * HOUR
    case _ => false
  }

  /** percent of the total less the fees, never below nothing and exact to half a paisa. */
  predicate IsTierLess(refund: nat, total: nat, percent: nat, fees: nat) {
    var owed := total * percent - 100 * fees;
    if owed <= 0 then refund == 0 else -100 <= 200 * refund - 2 * owed <= 100
  }

  /** The flight refund, told without computing it: everything within two hours of confirmation; afterwards nothing
      for non-refundable fares, and otherwise the tier's share less a fee per passenger, never below nothing and
      exact to half a paisa. */
  lemma FlightRefundTold(total: nat, since: Option<int>, left: int, refundable: bool, fee: nat, passengers: nat)
    ensures var refund := FlightRefund(total, since, left, refundable, fee, passengers);
            && (InGrace(since) ==> refund == total)
            && (!InGrace(since) && !refundable ==> refund == 0)
            && (!InGrace(since) && refundable ==>
                  exists percent :: FlightTier(left, percent) && IsTierLess(refund, total, percent, fee * passengers))
  {
    var percent := if left >= 72 * HOUR then 60 else if left >= 4 * HOUR then 25 else 0;
    assert FlightTier(left, percent);
  }

  predicate InGrace(sinceConfirmed: Option<int>) {
    sinceConfirmed.Some? && sinceConfirmed.value <= 2 * HOUR
  }

  /** Outside the grace period the flight refund never grows as departure nears, and entering that
      period's end never raises it either. */
  lemma FlightRefundFalls(total: nat, since: Option<int>, since': Option<int>, left: int, left': int,
                          refundable: bool, fee: nat, passengers: nat)
    requires left <= left' && !InGrace(since)
    ensures FlightRefund(total, since, left, refundable, fee, passengers)
         <= FlightRefund(total, since', left', refundable, fee, passengers)
  {
    FlightRefundBounded(total, since, left, refundable, fee, passengers);
    var percent := if left >= 72 * HOUR then 60 else if left >= 4 * HOUR then 25 else 0;
    var percent' := if left' >= 72 * HOUR then 60 else if left' >= 4 * HOUR then 25 else 0;
    var charge := 100 * (fee * passengers);
    ScaleOrder(total, percent, percent');
    if total * percent - charge >= 0 {
      RoundDivMonotone(total * percent - charge, total * percent' - charge, 100);
    }
  }
}
