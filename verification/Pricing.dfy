/** The bus pricing job: rules in priority order, the first match of each type, one product per instance.
    Prices and multipliers are reals, times in milliseconds. */
module Pricing {
  import opened Collections

  datatype RuleType = Demand | TimeToDeparture | Weekend | OtherType(name: string)

  datatype Conditions = Conditions(fillRateAbove: real, hoursAbove: real, hoursBelow: real, days: seq<int>)

  /** conditions is None when the stored JSON does not parse. Rules come ordered by priority. */
  datatype Rule = Rule(kind: RuleType, conditions: Option<Conditions>, multiplier: real)

  /** What the rules look at. */
  datatype Context = Context(fillRate: real, hours: real, weekday: int)

  predicate Matches(r: Rule, ctx: Context) {
    r.conditions.Some?
    && var c := r.conditions.value;
       match r.kind
       case Demand => c.fillRateAbove > 0.0 && ctx.fillRate >= c.fillRateAbove
       case TimeToDeparture => (c.hoursAbove > 0.0 && ctx.hours >= c.hoursAbove)
                               || (c.hoursBelow > 0.0 && ctx.hours <= c.hoursBelow)
       case Weekend => ctx.weekday in c.days
       case OtherType(_) => false
  }

  /** When a rule stays out: demand rules below their fill rate, time rules between their two bounds, weekday rules on
      other days, unreadable rules and rules of an unknown type always. A bound that is not positive is unset. */
  lemma StaysOut(r: Rule, ctx: Context)
    ensures r.conditions.None? || r.kind.OtherType? ==> !Matches(r, ctx)
    ensures r.conditions.Some? ==>
              var c := r.conditions.value;
              && (r.kind == Demand ==> (!Matches(r, ctx) <==> c.fillRateAbove <= 0.0 || ctx.fillRate < c.fillRateAbove))
              && (r.kind == TimeToDeparture ==>
                    (!Matches(r, ctx) <==> (0.0 < c.hoursAbove ==> ctx.hours < c.hoursAbove)
                                           && (0.0 < c.hoursBelow ==> c.hoursBelow < ctx.hours)))
              && (r.kind == Weekend ==>
                    (Matches(r, ctx) <==> exists i :: 0 <= i < |c.days| && c.days[i] == ctx.weekday))
  {
  }

  predicate Hits(r: Rule, kind: RuleType, ctx: Context) {
    r.kind == kind && Matches(r, ctx)
  }

  /** The multiplier of the first matching rule of this type, in priority order. */
  function FirstMatch(rules: seq<Rule>, kind: RuleType, ctx: Context): Option<real> {
    if rules == [] then None
    else if Hits(rules[0], kind, ctx) then Some(rules[0].multiplier)
    else FirstMatch(rules[1..], kind, ctx)
  }

  /** The position i of the first match; |rules| when there is none. */
  lemma {:induction false} FirstMatchAt(rules: seq<Rule>, kind: RuleType, ctx: Context) returns (i: nat)
    ensures i <= |rules| && forall j :: 0 <= j < i ==> !Hits(rules[j], kind, ctx)
    ensures i < |rules| ==> Hits(rules[i], kind, ctx)
    ensures FirstMatch(rules, kind, ctx) == if i < |rules| then Some(rules[i].multiplier) else None
    decreases |rules|
  {
    if rules == [] || Hits(rules[0], kind, ctx) {
      i := 0;
    } else {
      var k := FirstMatchAt(rules[1..], kind, ctx);
      i := k + 1;
      forall j | 1 <= j < i
        ensures !Hits(rules[j], kind, ctx)
      {
        assert rules[j] == rules[1..][j - 1];
      }
    }
  }

  function Factor(rules: seq<Rule>, kind: RuleType, ctx: Context): real {
    var m := FirstMatch(rules, kind, ctx);
    if m.Some? then m.value else 1.0
  }

  /** One factor per rule type. */
  function Product(rules: seq<Rule>, ctx: Context): real {
    Factor(rules, Demand, ctx) * Factor(rules, TimeToDeparture, ctx) * Factor(rules, Weekend, ctx)
  }

  lemma {:induction false} FirstMatchSnoc(rules: seq<Rule>, r: Rule, kind: RuleType, ctx: Context)
    ensures FirstMatch(rules + [r], kind, ctx) ==
              var m := FirstMatch(rules, kind, ctx);
              if m.Some? then m else if Hits(r, kind, ctx) then Some(r.multiplier) else None
    decreases |rules|
  {
    if rules == [] {
      assert (rules + [r])[1..] == [];
    } else {
      assert (rules + [r])[1..] == rules[1..] + [r];
      FirstMatchSnoc(rules[1..], r, kind, ctx);
    }
  }

  /** The rule loop fills typeMultiplier with the first match of each type. */
  method CollectMultipliers(rules: seq<Rule>, ctx: Context) returns (typeMultiplier: map<RuleType, real>)
    ensures forall k :: k in typeMultiplier <==> FirstMatch(rules, k, ctx).Some?
    ensures forall k :: k in typeMultiplier ==> FirstMatch(rules, k, ctx) == Some(typeMultiplier[k])
    ensures typeMultiplier.Keys <= {Demand, TimeToDeparture, Weekend}
  {
    typeMultiplier := map[];
    for i := 0 to |rules|
      invariant typeMultiplier.Keys <= {Demand, TimeToDeparture, Weekend}
      invariant forall k :: k in typeMultiplier <==> FirstMatch(rules[..i], k, ctx).Some?
      invariant forall k :: k in typeMultiplier ==> FirstMatch(rules[..i], k, ctx) == Some(typeMultiplier[k])
    {
      var rule := rules[i];
      forall k
        ensures FirstMatch(rules[..i + 1], k, ctx) ==
                  var m := FirstMatch(rules[..i], k, ctx);
                  if m.Some? then m else if Hits(rule, k, ctx) then Some(rule.multiplier) else None
      {
        assert rules[..i + 1] == rules[..i] + [rule];
        FirstMatchSnoc(rules[..i], rule, k, ctx);
      }
      if rule.kind !in typeMultiplier && Matches(rule, ctx) {
        typeMultiplier := typeMultiplier[rule.kind := rule.multiplier];
      }
    }
    assert rules[..|rules|] == rules;
  }

  /** What the types still to be visited will contribute. */
  function Left(m: map<RuleType, real>, left: set<RuleType>, k: RuleType): real
    requires left <= m.Keys
  {
    if k in left then m[k] else 1.0
  }

  /** The product loop visits the map in any order and always ends with the same multiplier. */
  method MultiplyAll(m: map<RuleType, real>) returns (final: real)
    requires m.Keys <= {Demand, TimeToDeparture, Weekend}
    ensures final == Left(m, m.Keys, Demand) * Left(m, m.Keys, TimeToDeparture) * Left(m, m.Keys, Weekend)
  {
    final := 1.0;
    var left := m.Keys;
    while left != {}
      invariant left <= m.Keys
      invariant final * (Left(m, left, Demand) * Left(m, left, TimeToDeparture) * Left(m, left, Weekend))
             == Left(m, m.Keys, Demand) * Left(m, m.Keys, TimeToDeparture) * Left(m, m.Keys, Weekend)
      decreases left
    {
      var k :| k in left;
      VisitOne(m, left, k, final);
      final := final * m[k];
      left := left - {k};
    }
  }

  lemma VisitOne(m: map<RuleType, real>, left: set<RuleType>, k: RuleType, sofar: real)
    requires k in left && left <= m.Keys <= {Demand, TimeToDeparture, Weekend}
    ensures sofar * m[k] * (Left(m, left - {k}, Demand) * Left(m, left - {k}, TimeToDeparture)
                            * Left(m, left - {k}, Weekend))
         == sofar * (Left(m, left, Demand) * Left(m, left, TimeToDeparture) * Left(m, left, Weekend))
  {
    var d, t, w := Left(m, left, Demand), Left(m, left, TimeToDeparture), Left(m, left, Weekend);
    match k
    case Demand => assert sofar * m[k] * (1.0 * t * w) == sofar * (m[k] * t * w);
    case TimeToDeparture => assert sofar * m[k] * (d * 1.0 * w) == sofar * (d * m[k] * w);
    case Weekend => assert sofar * m[k] * (d * t * 1.0) == sofar * (d * t * m[k]);
  }

  method FinalMultiplier(rules: seq<Rule>, ctx: Context) returns (final: real)
    ensures final == Product(rules, ctx)
  {
    var typeMultiplier := CollectMultipliers(rules, ctx);
    assert Left(typeMultiplier, typeMultiplier.Keys, Demand) == Factor(rules, Demand, ctx);
    assert Left(typeMultiplier, typeMultiplier.Keys, TimeToDeparture) == Factor(rules, TimeToDeparture, ctx);
    assert Left(typeMultiplier, typeMultiplier.Keys, Weekend) == Factor(rules, Weekend, ctx);
    final := MultiplyAll(typeMultiplier);
  }

  // ---- The tables ------------------------------------------------------------------------------------

  datatype SeatType = Seater | SemiSleeper | Sleeper | OtherSeat

  datatype Prices = Prices(seater: real, semiSleeper: real, sleeper: real)
  {
    function Of(t: SeatType): real {
      match t
      case Seater => seater
      case SemiSleeper => semiSleeper
      case Sleeper => sleeper
      case OtherSeat => 0.0
    }
  }

  datatype Instance = Instance(scheduled: bool, departure: int, weekday: int, totalSeats: nat, bookedSeats: nat,
                               base: Prices, current: Prices)
  datatype Fare = Fare(instance: nat, seatType: SeatType, name: string, price: real)

  function ContextOf(inst: Instance, now: int): Context {
    Context(if inst.totalSeats > 0 then inst.bookedSeats as real / inst.totalSeats as real else 0.0,
            (inst.departure - now) as real / 3_600_000.0, inst.weekday)
  }

  predicate Flexi(name: string) {
    name == "FLEXI" || name == "SUPER FLEXI"
  }

  function Repriced(f: Fare, base: real, m: real): Fare {
    if base > 0.0 then f.(price := base * m + if Flexi(f.name) then 300.0 else 0.0) else f
  }

  function CurrentPrices(inst: Instance, m: real): Prices {
    Prices(if inst.base.seater > 0.0 then inst.base.seater * m else inst.current.seater,
           if inst.base.semiSleeper > 0.0 then inst.base.semiSleeper * m else inst.current.semiSleeper,
           if inst.base.sleeper > 0.0 then inst.base.sleeper * m else inst.current.sleeper)
  }

  predicate Due(inst: Instance, now: int) {
    inst.scheduled && inst.departure > now
  }

  datatype Tables = Tables(instances: seq<Instance>, fares: seq<Fare>)

  function PricedInstance(inst: Instance, rules: seq<Rule>, now: int): Instance {
    if Due(inst, now) then inst.(current := CurrentPrices(inst, Product(rules, ContextOf(inst, now)))) else inst
  }

  function PricedFare(t: Tables, f: Fare, rules: seq<Rule>, now: int): Fare {
    if f.instance < |t.instances| && Due(t.instances[f.instance], now) then
      var inst := t.instances[f.instance];
      Repriced(f, inst.base.Of(f.seatType), Product(rules, ContextOf(inst, now)))
    else f
  }

  /** The tables after the job, row by row. */
  predicate Priced(t: Tables, t': Tables, rules: seq<Rule>, now: int) {
    && |t'.instances| == |t.instances| && |t'.fares| == |t.fares|
    && (forall n :: 0 <= n < |t.instances| ==> t'.instances[n] == PricedInstance(t.instances[n], rules, now))
    && (forall i :: 0 <= i < |t.fares| ==> t'.fares[i] == PricedFare(t, t.fares[i], rules, now))
  }

  class PricingJob {
    var instances: seq<Instance>
    var fares: seq<Fare>

    constructor (t: Tables)
      ensures Contents() == t
    {
      instances, fares := t.instances, t.fares;
    }

    function Contents(): Tables
      reads this
    {
      Tables(instances, fares)
    }

    method ApplyRulesToInstance(n: nat, rules: seq<Rule>, now: int)
      requires n < |instances|
      modifies this
      ensures var inst := old(instances)[n]; var m := Product(rules, ContextOf(inst, now));
              && instances == old(instances)[n := inst.(current := CurrentPrices(inst, m))]
              && |fares| == |old(fares)|
              && forall i :: 0 <= i < |fares| ==>
                   fares[i] == if old(fares)[i].instance != n then old(fares)[i]
                               else Repriced(old(fares)[i], inst.base.Of(old(fares)[i].seatType), m)
    {
      var inst := instances[n];
      var m := FinalMultiplier(rules, ContextOf(inst, now));
      RepriceFares(n, inst.base, m);
      instances := instances[n := inst.(current := CurrentPrices(inst, m))];
    }

    method RepriceFares(n: nat, base: Prices, m: real)
      modifies this`fares
      ensures |fares| == |old(fares)|
      ensures forall i :: 0 <= i < |fares| ==>
                fares[i] == if old(fares)[i].instance != n then old(fares)[i]
                            else Repriced(old(fares)[i], base.Of(old(fares)[i].seatType), m)
    {
      for i := 0 to |fares|
        invariant |fares| == |old(fares)|
        invariant forall k :: i <= k < |fares| ==> fares[k] == old(fares)[k]
        invariant forall k :: 0 <= k < i ==>
                    fares[k] == if old(fares)[k].instance != n then old(fares)[k]
                                else Repriced(old(fares)[k], base.Of(old(fares)[k].seatType), m)
      {
        if fares[i].instance == n {
          var basePrice := base.Of(fares[i].seatType);
          if basePrice > 0.0 {
            var offset := 0.0;
            if fares[i].name == "FLEXI" || fares[i].name == "SUPER FLEXI" {
              offset := 300.0;
            }
            fares := fares[i := fares[i].(price := basePrice * m + offset)];
          }
        }
      }
    }

    method UpdatePricesBasedOnRules(rules: seq<Rule>, now: int)
      modifies this
      ensures Priced(old(Contents()), Contents(), rules, now)
    {
      for n := 0 to |instances|
        invariant |instances| == |old(instances)| && |fares| == |old(fares)|
        invariant forall k :: 0 <= k < |instances| ==>
                    instances[k] == if k < n then PricedInstance(old(instances)[k], rules, now) else old(instances)[k]
        invariant forall i :: 0 <= i < |fares| ==>
                    fares[i] == if old(fares)[i].instance >= n then old(fares)[i]
                                else PricedFare(old(Contents()), old(fares)[i], rules, now)
      {
        if Due(instances[n], now) {
          ApplyRulesToInstance(n, rules, now);
        }
      }
    }
  }

  lemma RepricedTwice(f: Fare, base: real, m: real)
    ensures Repriced(Repriced(f, base, m), base, m) == Repriced(f, base, m)
    ensures Repriced(f, base, m).instance == f.instance && Repriced(f, base, m).seatType == f.seatType
  {
  }

  /** Repricing an instance changes nothing the next run reads. */
  lemma SameInputs(inst: Instance, rules: seq<Rule>, now: int)
    ensures var inst' := PricedInstance(inst, rules, now);
            && Due(inst', now) == Due(inst, now) && inst'.base == inst.base
            && ContextOf(inst', now) == ContextOf(inst, now)
            && PricedInstance(inst', rules, now) == inst'
  {
  }

  /** Running the job again on unchanged inputs changes nothing. */
  lemma RerunChangesNothing(t: Tables, t': Tables, t'': Tables, rules: seq<Rule>, now: int)
    requires Priced(t, t', rules, now) && Priced(t', t'', rules, now)
    ensures t'' == t'
  {
    forall n | 0 <= n < |t.instances|
      ensures t''.instances[n] == t'.instances[n]
    {
      SameInputs(t.instances[n], rules, now);
    }
    forall i | 0 <= i < |t.fares|
      ensures t''.fares[i] == t'.fares[i]
    {
      var f := t.fares[i];
      if f.instance < |t.instances| && Due(t.instances[f.instance], now) {
        var inst := t.instances[f.instance];
        SameInputs(inst, rules, now);
        RepricedTwice(f, inst.base.Of(f.seatType), Product(rules, ContextOf(inst, now)));
      } else if f.instance < |t.instances| {
        SameInputs(t.instances[f.instance], rules, now);
      }
    }
    assert t''.instances == t'.instances && t''.fares == t'.fares;
  }

  /** FLEXI fares stay exactly 300 above the plain fare of the same instance and seat type, and the plain fare
      is the price the search shows. */
  lemma FlexiGap(t: Tables, t': Tables, rules: seq<Rule>, now: int, plain: nat, flexi: nat)
    requires Priced(t, t', rules, now) && plain < |t.fares| && flexi < |t.fares|
    requires t.fares[plain].instance == t.fares[flexi].instance < |t.instances|
             && t.fares[plain].seatType == t.fares[flexi].seatType
    requires Due(t.instances[t.fares[plain].instance], now)
    requires t.instances[t.fares[plain].instance].base.Of(t.fares[plain].seatType) > 0.0
    requires !Flexi(t.fares[plain].name) && Flexi(t.fares[flexi].name)
    ensures t'.fares[flexi].price == t'.fares[plain].price + 300.0
    ensures t'.fares[plain].price == t'.instances[t.fares[plain].instance].current.Of(t.fares[plain].seatType)
  {
    var n := t.fares[plain].instance;
    assert t'.instances[n] == PricedInstance(t.instances[n], rules, now);
    assert t'.fares[plain] == PricedFare(t, t.fares[plain], rules, now);
    assert t'.fares[flexi] == PricedFare(t, t.fares[flexi], rules, now);
  }

  // ---- What the job writes ---------------------------------------------------------------------------

  /** What the rules look at: the booked share of the seats and the hours to departure. */
  lemma ContextTold(inst: Instance, now: int)
    ensures var ctx := ContextOf(inst, now);
            && ctx.fillRate * inst.totalSeats as real
               == (if inst.totalSeats > 0 then inst.bookedSeats as real else 0.0)
            && (inst.totalSeats == 0 ==> ctx.fillRate == 0.0)
            && ctx.hours * 3_600_000.0 == (inst.departure - now) as real && ctx.weekday == inst.weekday
  {
  }

  /** The fares of scheduled buses still to depart become the base price times the final multiplier, FLEXI ones 300
      more; fares without a base price, and those of all other buses, stay. */
  lemma FaresTold(t: Tables, t': Tables, rules: seq<Rule>, now: int, i: nat)
    requires Priced(t, t', rules, now) && i < |t.fares|
    ensures |t'.fares| == |t.fares| && t'.fares[i] == t.fares[i].(price := t'.fares[i].price)
    ensures var f := t.fares[i];
            if f.instance < |t.instances| && t.instances[f.instance].scheduled
               && t.instances[f.instance].departure > now
               && t.instances[f.instance].base.Of(f.seatType) > 0.0
            then
              var inst := t.instances[f.instance];
              var surcharge := if f.name in {"FLEXI", "SUPER FLEXI"} then 300.0 else 0.0;
              t'.fares[i].price - surcharge == inst.base.Of(f.seatType) * Product(rules, ContextOf(inst, now))
            else t'.fares[i].price == t.fares[i].price
  {
  }

  /** So do the search prices, type by type; nothing else of an instance changes. */
  lemma SearchPricesTold(t: Tables, t': Tables, rules: seq<Rule>, now: int, n: nat, seatType: SeatType)
    requires Priced(t, t', rules, now) && n < |t.instances|
    ensures |t'.instances| == |t.instances|
    ensures var inst, inst' := t.instances[n], t'.instances[n];
            && inst' == inst.(current := inst'.current)
            && inst'.current.Of(seatType)
               == if inst.scheduled && inst.departure > now && inst.base.Of(seatType) > 0.0
                  then inst.base.Of(seatType) * Product(rules, ContextOf(inst, now)) else inst.current.Of(seatType)
  {
    assert t'.instances[n] == PricedInstance(t.instances[n], rules, now);
  }

  // ---- Demand ----------------------------------------------------------------------------------------

  /** A demand rule that some fill rate can meet. */
  predicate Effective(r: Rule) {
    r.kind == Demand && r.conditions.Some? && 0.0 < r.conditions.value.fillRateAbove <= 1.0
  }

  function Threshold(r: Rule): real
    requires Effective(r)
  {
    r.conditions.value.fillRateAbove
  }

  /** Among demand rules, thresholds fall and multipliers do not rise with priority. */
  predicate Falling(rules: seq<Rule>) {
    forall i, j :: 0 <= i < j < |rules| && Effective(rules[i]) && Effective(rules[j]) ==>
      Threshold(rules[i]) > Threshold(rules[j]) && rules[i].multiplier >= rules[j].multiplier
  }

  function DemandFactor(rules: seq<Rule>, fill: real): real {
    Factor(rules, Demand, Context(fill, 0.0, 0))
  }

  predicate DemandHit(r: Rule, fill: real) {
    Effective(r) && fill >= Threshold(r)
  }

  /** Where the demand factor comes from at a fill rate. */
  lemma DemandSource(rules: seq<Rule>, fill: real) returns (i: nat)
    requires fill <= 1.0
    ensures i <= |rules| && forall j :: 0 <= j < i ==> !DemandHit(rules[j], fill)
    ensures if i < |rules| then DemandHit(rules[i], fill) && DemandFactor(rules, fill) == rules[i].multiplier
            else DemandFactor(rules, fill) == 1.0
  {
    var ctx := Context(fill, 0.0, 0);
    assert forall j :: 0 <= j < |rules| ==> (DemandHit(rules[j], fill) <==> Hits(rules[j], Demand, ctx));
    i := FirstMatchAt(rules, Demand, ctx);
  }

  ghost predicate DemandMonotone(rules: seq<Rule>) {
    forall f: real, f': real :: 0.0 <= f <= f' <= 1.0 ==> DemandFactor(rules, f) <= DemandFactor(rules, f')
  }

  /** No demand rule that can match lowers the price. */
  predicate OnlyRaises(rules: seq<Rule>) {
    forall i :: 0 <= i < |rules| && Effective(rules[i]) ==> rules[i].multiplier >= 1.0
  }

  /** The demand factor never falls with the fill rate exactly when no effective rule is below 1. */
  lemma DemandMonotoneIff(rules: seq<Rule>)
    requires Falling(rules)
    ensures DemandMonotone(rules) <==> OnlyRaises(rules)
  {
    if OnlyRaises(rules) {
      forall f: real, f': real | 0.0 <= f <= f' <= 1.0
        ensures DemandFactor(rules, f) <= DemandFactor(rules, f')
      {
        var i := DemandSource(rules, f);
        var i' := DemandSource(rules, f');
        if i < |rules| {
          assert DemandHit(rules[i], f');
        }
      }
    } else {
      var i: nat :| i < |rules| && Effective(rules[i]) && rules[i].multiplier < 1.0;
      var t := Threshold(rules[i]);
      var at := DemandSource(rules, t);
      var below := DemandSource(rules, 0.0);
      assert DemandHit(rules[i], t);
      assert DemandFactor(rules, 0.0) == 1.0 && DemandFactor(rules, t) < 1.0;
    }
  }

  // ---- Prices and demand -----------------------------------------------------------------------------

  lemma {:induction false} FirstMatchSame(rules: seq<Rule>, kind: RuleType, ctx: Context, ctx': Context)
    requires forall r :: Hits(r, kind, ctx) <==> Hits(r, kind, ctx')
    ensures FirstMatch(rules, kind, ctx) == FirstMatch(rules, kind, ctx')
    decreases |rules|
  {
    if rules != [] {
      FirstMatchSame(rules[1..], kind, ctx, ctx');
    }
  }

  /** What the other rule types multiply in. */
  function Others(rules: seq<Rule>, ctx: Context): real {
    Factor(rules, TimeToDeparture, ctx) * Factor(rules, Weekend, ctx)
  }

  /** The fill rate enters the product through the demand factor alone. */
  lemma ProductSplits(rules: seq<Rule>, ctx: Context, fill: real)
    ensures Product(rules, ctx.(fillRate := fill)) == DemandFactor(rules, fill) * Others(rules, ctx)
  {
    var ctx' := ctx.(fillRate := fill);
    FirstMatchSame(rules, Demand, ctx', Context(fill, 0.0, 0));
    FirstMatchSame(rules, TimeToDeparture, ctx', ctx);
    FirstMatchSame(rules, Weekend, ctx', ctx);
    var d, t, w := DemandFactor(rules, fill), Factor(rules, TimeToDeparture, ctx), Factor(rules, Weekend, ctx);
    assert d * t * w == d * (t * w);
  }

  /** Multipliers of the other types are above the bound, the factor 1 of a type without a match too. */
  predicate OthersAtLeast(rules: seq<Rule>, bound: real) {
    forall i :: 0 <= i < |rules| && rules[i].kind != Demand ==> rules[i].multiplier >= bound
  }

  predicate OthersPositive(rules: seq<Rule>) {
    forall i :: 0 <= i < |rules| && rules[i].kind != Demand ==> rules[i].multiplier > 0.0
  }

  lemma ProductSign(x: real, y: real)
    requires x >= 0.0 && y >= 0.0
    ensures x * y >= 0.0 && (x > 0.0 && y > 0.0 ==> x * y > 0.0)
  {
  }

  lemma OthersSign(rules: seq<Rule>, ctx: Context)
    requires OthersAtLeast(rules, 0.0)
    ensures Others(rules, ctx) >= 0.0 && (OthersPositive(rules) ==> Others(rules, ctx) > 0.0)
  {
    var i := FirstMatchAt(rules, TimeToDeparture, ctx);
    var j := FirstMatchAt(rules, Weekend, ctx);
    ProductSign(Factor(rules, TimeToDeparture, ctx), Factor(rules, Weekend, ctx));
  }

  lemma Distribute(x: real, y: real, c: real)
    ensures (x - y) * c == x * c - y * c
  {
  }

  lemma ScaleReal(x: real, y: real, c: real)
    requires c >= 0.0
    ensures x <= y ==> x * c <= y * c
    ensures c > 0.0 && x > y ==> x * c > y * c
  {
    if x <= y {
      ProductSign(y - x, c);
      Distribute(y, x, c);
    } else {
      ProductSign(x - y, c);
      Distribute(x, y, c);
    }
  }

  lemma ScaledOrder(p: real, p': real, x: real, y: real, c: real)
    requires c >= 0.0 && p == x * c && p' == y * c
    ensures x <= y ==> p <= p'
    ensures c > 0.0 && x > y ==> p > p'
  {
    if x <= y {
      ScaleReal(x, y, c);
      assert p <= p';
    } else if c > 0.0 {
      ScaleReal(x, y, c);
      assert p > p';
    }
  }

  /** At every moment the final multiplier does not fall as a bus fills. */
  ghost predicate ProductMonotone(rules: seq<Rule>) {
    forall ctx: Context, fill: real :: 0.0 <= ctx.fillRate <= fill <= 1.0 ==>
      Product(rules, ctx) <= Product(rules, ctx.(fillRate := fill))
  }

  lemma SplitBoth(rules: seq<Rule>, ctx: Context, fill: real) returns (o: real)
    requires OthersAtLeast(rules, 0.0)
    ensures o >= 0.0 && (OthersPositive(rules) ==> o > 0.0)
    ensures Product(rules, ctx) == DemandFactor(rules, ctx.fillRate) * o
    ensures Product(rules, ctx.(fillRate := fill)) == DemandFactor(rules, fill) * o
  {
    o := Others(rules, ctx);
    assert ctx.(fillRate := ctx.fillRate) == ctx;
    ProductSplits(rules, ctx, ctx.fillRate);
    ProductSplits(rules, ctx, fill);
    OthersSign(rules, ctx);
  }

  /** How the products at two fill rates compare, told by the demand factors. */
  lemma FillComparison(rules: seq<Rule>, ctx: Context, fill: real)
    requires OthersAtLeast(rules, 0.0)
    ensures var d, d' := DemandFactor(rules, ctx.fillRate), DemandFactor(rules, fill);
            var p, p' := Product(rules, ctx), Product(rules, ctx.(fillRate := fill));
            (d <= d' ==> p <= p') && (OthersPositive(rules) && d > d' ==> p > p')
  {
    var d, d' := DemandFactor(rules, ctx.fillRate), DemandFactor(rules, fill);
    var p, p' := Product(rules, ctx), Product(rules, ctx.(fillRate := fill));
    var o := SplitBoth(rules, ctx, fill);
    ScaledOrder(p, p', d, d', o);
  }

  lemma FullerMultipliesMore(rules: seq<Rule>, ctx: Context, fill: real)
    requires Falling(rules) && OnlyRaises(rules) && OthersAtLeast(rules, 0.0) && 0.0 <= ctx.fillRate <= fill <= 1.0
    ensures Product(rules, ctx) <= Product(rules, ctx.(fillRate := fill))
  {
    DemandMonotoneIff(rules);
    assert DemandFactor(rules, ctx.fillRate) <= DemandFactor(rules, fill);
    FillComparison(rules, ctx, fill);
  }

  /** With positive multipliers of the other types: fuller buses never cost less exactly when no demand rule that
      can match lowers the price. */
  lemma ProductMonotoneIff(rules: seq<Rule>)
    requires Falling(rules) && OthersPositive(rules)
    ensures ProductMonotone(rules) <==> OnlyRaises(rules)
  {
    if OnlyRaises(rules) {
      forall ctx: Context, fill: real | 0.0 <= ctx.fillRate <= fill <= 1.0
        ensures Product(rules, ctx) <= Product(rules, ctx.(fillRate := fill))
      {
        FullerMultipliesMore(rules, ctx, fill);
      }
    } else {
      DemandMonotoneIff(rules);
      var f: real, f': real :| 0.0 <= f <= f' <= 1.0 && DemandFactor(rules, f) > DemandFactor(rules, f');
      var ctx := Context(f, 0.0, 0);
      FillComparison(rules, ctx, f');
      assert Product(rules, ctx) > Product(rules, ctx.(fillRate := f'));
    }
  }

  lemma FillRateGrows(inst: Instance, booked: nat, now: int)
    requires inst.bookedSeats <= booked <= inst.totalSeats
    ensures var ctx, ctx' := ContextOf(inst, now), ContextOf(inst.(bookedSeats := booked), now);
            0.0 <= ctx.fillRate <= ctx'.fillRate <= 1.0 && ctx' == ctx.(fillRate := ctx'.fillRate)
  {
    if inst.totalSeats > 0 {
      var total := inst.totalSeats as real;
      QuotientOrder(inst.bookedSeats as real, booked as real, total);
      QuotientOrder(booked as real, total, total);
      QuotientOrder(0.0, inst.bookedSeats as real, total);
    }
  }

  lemma QuotientOrder(x: real, y: real, d: real)
    requires x <= y && d > 0.0
    ensures x / d <= y / d && d / d == 1.0 && 0.0 / d == 0.0
  {
    assert y / d - x / d == (y - x) / d;
  }

  lemma RepricedOrder(f: Fare, base: real, m: real, m': real)
    requires m <= m'
    ensures Repriced(f, base, m).price <= Repriced(f, base, m').price
  {
    if base > 0.0 {
      ScaleReal(m, m', base);
    }
  }

  lemma CurrentOrder(inst: Instance, inst': Instance, m: real, m': real, seatType: SeatType)
    requires m <= m' && inst'.base == inst.base && inst'.current == inst.current
    ensures CurrentPrices(inst, m).Of(seatType) <= CurrentPrices(inst', m').Of(seatType)
  {
    PriceOrder(inst.base.seater, inst.current.seater, m, m');
    PriceOrder(inst.base.semiSleeper, inst.current.semiSleeper, m, m');
    PriceOrder(inst.base.sleeper, inst.current.sleeper, m, m');
  }

  lemma PriceOrder(base: real, current: real, m: real, m': real)
    requires m <= m'
    ensures (if base > 0.0 then base * m else current) <= (if base > 0.0 then base * m' else current)
  {
    if base > 0.0 {
      ScaleReal(m, m', base);
    }
  }

  /** More seats booked on a bus never lower any fare or search price the job writes. */
  lemma FullerNeverCheaper(t: Tables, n: nat, booked: nat, rules: seq<Rule>, now: int, f: Fare, seatType: SeatType)
    requires Falling(rules) && OnlyRaises(rules) && OthersAtLeast(rules, 0.0)
    requires n < |t.instances| && t.instances[n].bookedSeats <= booked <= t.instances[n].totalSeats
    ensures var inst, inst' := t.instances[n], t.instances[n].(bookedSeats := booked);
            var t' := t.(instances := t.instances[n := inst']);
            && PricedFare(t, f, rules, now).price <= PricedFare(t', f, rules, now).price
            && PricedInstance(inst, rules, now).current.Of(seatType)
               <= PricedInstance(inst', rules, now).current.Of(seatType)
  {
    var inst := t.instances[n];
    var ctx, ctx' := ContextOf(inst, now), ContextOf(inst.(bookedSeats := booked), now);
    FillRateGrows(inst, booked, now);
    FullerMultipliesMore(rules, ctx, ctx'.fillRate);
    RepricedOrder(f, inst.base.Of(f.seatType), Product(rules, ctx), Product(rules, ctx'));
    CurrentOrder(inst, inst.(bookedSeats := booked), Product(rules, ctx), Product(rules, ctx'), seatType);
  }

  function DemandRule(above: real, multiplier: real): Rule {
    Rule(Demand, Some(Conditions(above, 0.0, 0.0, [])), multiplier)
  }

  function TimeRule(above: real, below: real, multiplier: real): Rule {
    Rule(TimeToDeparture, Some(Conditions(0.0, above, below, [])), multiplier)
  }

  function DayRule(days: seq<int>, multiplier: real): Rule {
    Rule(Weekend, Some(Conditions(0.0, 0.0, 0.0, days)), multiplier)
  }

  /** The rules the bus service ships, in priority order. */
  function ShippedRules(): seq<Rule> {
    [DemandRule(0.90, 1.40), DemandRule(0.75, 1.25), DemandRule(0.50, 1.10),
     TimeRule(0.0, 6.0, 1.30), TimeRule(0.0, 24.0, 1.15), TimeRule(0.0, 72.0, 1.05), TimeRule(336.0, 0.0, 0.85),
     DayRule([5, 6, 7], 1.15), DayRule([2, 3], 0.90)]
  }

  /** What they multiply in: more as the bus fills, more shortly before departure and less two weeks ahead, more from
      Friday to Sunday and less on Tuesday and Wednesday. */
  lemma ShippedFactors(ctx: Context)
    ensures Factor(ShippedRules(), Demand, ctx) ==
              if ctx.fillRate >= 0.90 then 1.40 else if ctx.fillRate >= 0.75 then 1.25
              else if ctx.fillRate >= 0.50 then 1.10 else 1.0
    ensures Factor(ShippedRules(), TimeToDeparture, ctx) ==
              if ctx.hours <= 6.0 then 1.30 else if ctx.hours <= 24.0 then 1.15 else if ctx.hours <= 72.0 then 1.05
              else if ctx.hours >= 336.0 then 0.85 else 1.0
    ensures Factor(ShippedRules(), Weekend, ctx) ==
              if ctx.weekday in {5, 6, 7} then 1.15 else if ctx.weekday in {2, 3} then 0.90 else 1.0
  {
    ShippedDemand(ctx);
    ShippedTime(ctx);
    ShippedDays(ctx);
  }

  lemma ShippedDemand(ctx: Context)
    ensures Factor(ShippedRules(), Demand, ctx) ==
              if ctx.fillRate >= 0.90 then 1.40 else if ctx.fillRate >= 0.75 then 1.25
              else if ctx.fillRate >= 0.50 then 1.10 else 1.0
  {
    var rules := ShippedRules();
    var i := FirstMatchAt(rules, Demand, ctx);
    assert !Hits(rules[0], Demand, ctx) || i == 0;
    assert !Hits(rules[1], Demand, ctx) || i <= 1;
    assert !Hits(rules[2], Demand, ctx) || i <= 2;
  }

  lemma ShippedTime(ctx: Context)
    ensures Factor(ShippedRules(), TimeToDeparture, ctx) ==
              if ctx.hours <= 6.0 then 1.30 else if ctx.hours <= 24.0 then 1.15 else if ctx.hours <= 72.0 then 1.05
              else if ctx.hours >= 336.0 then 0.85 else 1.0
  {
    var rules := ShippedRules();
    var i := FirstMatchAt(rules, TimeToDeparture, ctx);
    assert !Hits(rules[3], TimeToDeparture, ctx) || i <= 3;
    assert !Hits(rules[4], TimeToDeparture, ctx) || i <= 4;
    assert !Hits(rules[5], TimeToDeparture, ctx) || i <= 5;
    assert !Hits(rules[6], TimeToDeparture, ctx) || i <= 6;
  }

  lemma ShippedDays(ctx: Context)
    ensures Factor(ShippedRules(), Weekend, ctx) ==
              if ctx.weekday in {5, 6, 7} then 1.15 else if ctx.weekday in {2, 3} then 0.90 else 1.0
  {
    var rules := ShippedRules();
    var i := FirstMatchAt(rules, Weekend, ctx);
    assert !Hits(rules[7], Weekend, ctx) || i <= 7;
    assert !Hits(rules[8], Weekend, ctx) || i <= 8;
  }

  /** With them a fuller bus never costs less. */
  lemma ShippedRulesMonotone()
    ensures Falling(ShippedRules()) && OnlyRaises(ShippedRules()) && OthersPositive(ShippedRules())
    ensures ProductMonotone(ShippedRules())
  {
    var rules := ShippedRules();
    assert forall i :: 0 <= i < |rules| && Effective(rules[i]) ==> i < 3 && rules[i].multiplier >= 1.0;
    ProductMonotoneIff(rules);
  }
}
