/** The berths a new train schedule starts with (Train-service/jobs/inventory_job.go). */
module TrainInventory {
  import opened Decimals

  datatype SeatStatus = Available | PendingPayment | Booked

  datatype Berth = Berth(schedule: nat, coach: string, number: string, travelClass: string, berthType: string,
                         price: nat, status: SeatStatus)

  datatype BerthConfig = BerthConfig(number: string, berthType: string, price: nat)

  /** One class of coaches: how many, how they are lettered, and the berths of each. */
  datatype ClassConfig = ClassConfig(travelClass: string, letter: string, coaches: nat, berths: seq<BerthConfig>)
  {
    function Total(): nat { coaches * |berths| }
  }

  const CLASSES: set<string> := {"SL", "3AC", "2AC", "1AC"}

  /** Prices in paise. */
  function DefaultConfig(): seq<ClassConfig> {
    [ClassConfig("SL", "S", 3, [
       BerthConfig("1", "LOWER", 75000), BerthConfig("2", "MIDDLE", 72000), BerthConfig("3", "UPPER", 70000),
       BerthConfig("4", "LOWER", 75000), BerthConfig("5", "MIDDLE", 72000), BerthConfig("6", "UPPER", 70000),
       BerthConfig("7", "SIDE_LOWER", 68000), BerthConfig("8", "SIDE_UPPER", 66000)]),
     ClassConfig("3AC", "B", 2, [
       BerthConfig("1", "LOWER", 145000), BerthConfig("2", "MIDDLE", 140000), BerthConfig("3", "UPPER", 135000),
       BerthConfig("4", "LOWER", 145000), BerthConfig("5", "MIDDLE", 140000), BerthConfig("6", "UPPER", 135000),
       BerthConfig("7", "SIDE_LOWER", 130000), BerthConfig("8", "SIDE_UPPER", 128000)]),
     ClassConfig("2AC", "A", 1, [
       BerthConfig("1", "LOWER", 210000), BerthConfig("2", "UPPER", 200000),
       BerthConfig("3", "LOWER", 210000), BerthConfig("4", "UPPER", 200000)]),
     ClassConfig("1AC", "H", 1, [BerthConfig("1", "LOWER", 350000), BerthConfig("2", "UPPER", 330000)])]
  }

  function BuildInventory(schedule: nat, coach: string, travelClass: string, b: BerthConfig): Berth {
    Berth(schedule, coach, b.number, travelClass, b.berthType, b.price, Available)
  }

  /** The first n berths of one coach. */
  function CoachBerths(schedule: nat, c: ClassConfig, coach: nat, n: nat): seq<Berth>
    requires n <= |c.berths|
  {
    seq(n, i requires 0 <= i < n => BuildInventory(schedule, c.letter + Decimal(coach), c.travelClass, c.berths[i]))
  }

  /** Coaches 1 to n of one class. */
  function ClassBerths(schedule: nat, c: ClassConfig, n: nat): seq<Berth> {
    if n == 0 then [] else ClassBerths(schedule, c, n - 1) + CoachBerths(schedule, c, n, |c.berths|)
  }

  function Generated(schedule: nat, cfg: seq<ClassConfig>): seq<Berth> {
    if cfg == [] then []
    else Generated(schedule, cfg[..|cfg| - 1]) + ClassBerths(schedule, cfg[|cfg| - 1], cfg[|cfg| - 1].coaches)
  }

  method GenerateBerths(schedule: nat, cfg: seq<ClassConfig>) returns (all: seq<Berth>)
    ensures all == Generated(schedule, cfg)
  {
    all := [];
    for k := 0 to |cfg|
      invariant all == Generated(schedule, cfg[..k])
    {
      var c := cfg[k];
      ghost var before := all;
      for coach := 0 to c.coaches
        invariant all == before + ClassBerths(schedule, c, coach)
      {
        ghost var coachStart := all;
        for i := 0 to |c.berths|
          invariant all == coachStart + CoachBerths(schedule, c, coach + 1, i)
        {
          all := all + [BuildInventory(schedule, c.letter + Decimal(coach + 1), c.travelClass, c.berths[i])];
        }
        assert all == before + ClassBerths(schedule, c, coach + 1);
      }
      assert cfg[..k + 1][..k] == cfg[..k];
    }
    assert cfg[..|cfg|] == cfg;
  }

  predicate IsFree(b: Berth, schedule: nat, travelClass: string) {
    b.schedule == schedule && b.travelClass == travelClass && b.status == Available
  }

  /** The AVAILABLE berths of a class of a schedule. */
  function Free(berths: seq<Berth>, schedule: nat, travelClass: string): set<nat> {
    set i: nat | i < |berths| && IsFree(berths[i], schedule, travelClass)
  }

  lemma FreeSnoc(berths: seq<Berth>, b: Berth, schedule: nat, travelClass: string)
    ensures Free(berths + [b], schedule, travelClass)
            == Free(berths, schedule, travelClass) + (if IsFree(b, schedule, travelClass) then {|berths|} else {})
  {
  }

  /** Berths appended one run of equally free ones after another. */
  lemma {:induction false} FreeAppend(berths: seq<Berth>, more: seq<Berth>, schedule: nat, travelClass: string,
                                      free: bool)
    requires forall i :: 0 <= i < |more| ==> IsFree(more[i], schedule, travelClass) == free
    ensures |Free(berths + more, schedule, travelClass)|
            == |Free(berths, schedule, travelClass)| + if free then |more| else 0
    decreases |more|
  {
    if more == [] {
      assert berths + more == berths;
    } else {
      var init, last := more[..|more| - 1], more[|more| - 1];
      FreeAppend(berths, init, schedule, travelClass, free);
      assert berths + more == (berths + init) + [last];
      FreeSnoc(berths + init, last, schedule, travelClass);
    }
  }

  lemma {:induction false} ClassBerthsShape(schedule: nat, c: ClassConfig, n: nat)
    ensures |ClassBerths(schedule, c, n)| == n * |c.berths|
    ensures forall i :: 0 <= i < |ClassBerths(schedule, c, n)| ==>
              IsFree(ClassBerths(schedule, c, n)[i], schedule, c.travelClass)
  {
    if n > 0 {
      ClassBerthsShape(schedule, c, n - 1);
      assert n * |c.berths| == (n - 1) * |c.berths| + |c.berths|;
    }
  }

  /** What the schedule row of a new schedule says is available in a class: the totals of its configurations. */
  function Capacity(cfg: seq<ClassConfig>, travelClass: string): nat {
    if cfg == [] then 0
    else Capacity(cfg[..|cfg| - 1], travelClass)
         + if cfg[|cfg| - 1].travelClass == travelClass then cfg[|cfg| - 1].Total() else 0
  }

  /** Appending a generated schedule adds its capacity to its own free counts and nothing to any other. */
  lemma {:induction false} GeneratedFree(berths: seq<Berth>, schedule: nat, cfg: seq<ClassConfig>, other: nat,
                                         travelClass: string)
    ensures |Free(berths + Generated(schedule, cfg), other, travelClass)|
            == |Free(berths, other, travelClass)| + if other == schedule then Capacity(cfg, travelClass) else 0
    decreases |cfg|
  {
    if cfg == [] {
      assert berths + Generated(schedule, cfg) == berths;
    } else {
      var init, c := cfg[..|cfg| - 1], cfg[|cfg| - 1];
      GeneratedFree(berths, schedule, init, other, travelClass);
      ClassBerthsShape(schedule, c, c.coaches);
      var more := ClassBerths(schedule, c, c.coaches);
      var free := other == schedule && travelClass == c.travelClass;
      forall i | 0 <= i < |more|
        ensures IsFree(more[i], other, travelClass) == free
      {
        assert IsFree(more[i], schedule, c.travelClass);
      }
      FreeAppend(berths + Generated(schedule, init), more, other, travelClass, free);
      assert berths + Generated(schedule, cfg)
          == (berths + Generated(schedule, init)) + more;
    }
  }

  lemma {:induction false} GeneratedBerthsBelong(schedule: nat, cfg: seq<ClassConfig>, i: nat)
    requires i < |Generated(schedule, cfg)|
    ensures var b := Generated(schedule, cfg)[i];
            && b.schedule == schedule && b.status == Available
            && exists k :: 0 <= k < |cfg| && cfg[k].travelClass == b.travelClass
    decreases |cfg|
  {
    var init, c := cfg[..|cfg| - 1], cfg[|cfg| - 1];
    ClassBerthsShape(schedule, c, c.coaches);
    if i < |Generated(schedule, init)| {
      GeneratedBerthsBelong(schedule, init, i);
      var k :| 0 <= k < |init| && init[k].travelClass == Generated(schedule, init)[i].travelClass;
      assert cfg[k].travelClass == Generated(schedule, cfg)[i].travelClass;
    }
  }

  /** The default coaches: 24 SL, 16 3AC, 4 2AC and 2 1AC berths. */
  lemma DefaultCapacity()
    ensures Capacity(DefaultConfig(), "SL") == 24 && Capacity(DefaultConfig(), "3AC") == 16
    ensures Capacity(DefaultConfig(), "2AC") == 4 && Capacity(DefaultConfig(), "1AC") == 2
    ensures forall k :: 0 <= k < |DefaultConfig()| ==> DefaultConfig()[k].travelClass in CLASSES
  {
    var cfg := DefaultConfig();
    var c3, c2, c1 := cfg[..3], cfg[..2], cfg[..1];
    assert c3[..2] == c2 && c2[..1] == c1 && c1[..0] == [];
    assert cfg[3].Total() == 2 && c3[2].Total() == 4 && c2[1].Total() == 16 && c1[0].Total() == 24;
    assert forall t :: Capacity(c1, t) == if t == "SL" then 24 else 0;
    assert forall t :: Capacity(c2, t) == Capacity(c1, t) + if t == "3AC" then 16 else 0;
    assert forall t :: Capacity(c3, t) == Capacity(c2, t) + if t == "2AC" then 4 else 0;
    assert forall t :: Capacity(cfg, t) == Capacity(c3, t) + if t == "1AC" then 2 else 0;
  }

  // ---- Berth names -----------------------------------------------------------------------------------

  lemma {:induction false} ClassBerthAt(schedule: nat, c: ClassConfig, n: nat, x: nat) returns (coach: nat, i: nat)
    requires x < |ClassBerths(schedule, c, n)|
    ensures 1 <= coach <= n && i < |c.berths| && x == |ClassBerths(schedule, c, coach - 1)| + i
    ensures ClassBerths(schedule, c, n)[x]
         == BuildInventory(schedule, c.letter + Decimal(coach), c.travelClass, c.berths[i])
    decreases n
  {
    var before := |ClassBerths(schedule, c, n - 1)|;
    if x < before {
      coach, i := ClassBerthAt(schedule, c, n - 1, x);
    } else {
      coach, i := n, x - before;
    }
  }

  /** Class k, coach and position of a generated berth, all that its row is made of. */
  lemma {:induction false} GeneratedAt(schedule: nat, cfg: seq<ClassConfig>, x: nat)
    returns (k: nat, coach: nat, i: nat)
    requires x < |Generated(schedule, cfg)|
    ensures k < |cfg| && 1 <= coach <= cfg[k].coaches && i < |cfg[k].berths|
    ensures x == |Generated(schedule, cfg[..k])| + |ClassBerths(schedule, cfg[k], coach - 1)| + i
    ensures Generated(schedule, cfg)[x]
         == Berth(schedule, cfg[k].letter + Decimal(coach), cfg[k].berths[i].number, cfg[k].travelClass,
                  cfg[k].berths[i].berthType, cfg[k].berths[i].price, Available)
    decreases |cfg|
  {
    var n := |cfg| - 1;
    var before := |Generated(schedule, cfg[..n])|;
    if x < before {
      k, coach, i := GeneratedAt(schedule, cfg[..n], x);
      assert cfg[..n][..k] == cfg[..k];
    } else {
      k := n;
      coach, i := ClassBerthAt(schedule, cfg[n], cfg[n].coaches, x - before);
    }
  }

  /** Classes are told apart by one letter, the berths of a coach by their numbers. */
  predicate Lettered(cfg: seq<ClassConfig>) {
    && (forall k :: 0 <= k < |cfg| ==> |cfg[k].letter| == 1)
    && (forall k, l :: 0 <= k < l < |cfg| ==> cfg[k].letter != cfg[l].letter)
    && (forall k, i, j :: 0 <= k < |cfg| && 0 <= i < j < |cfg[k].berths| ==>
          cfg[k].berths[i].number != cfg[k].berths[j].number)
  }

  lemma CoachNames(a: string, m: nat, b: string, n: nat)
    requires |a| == |b| == 1 && a + Decimal(m) == b + Decimal(n)
    ensures a == b && m == n
  {
    var s, t := a + Decimal(m), b + Decimal(n);
    assert a == s[..1] == t[..1] == b;
    assert Decimal(m) == s[1..] == t[1..] == Decimal(n);
    DecimalInjective(m, n);
  }

  /** No two berths of a schedule share both coach and number. */
  lemma BerthsDistinct(schedule: nat, cfg: seq<ClassConfig>, x: nat, y: nat)
    requires Lettered(cfg) && x < |Generated(schedule, cfg)| && y < |Generated(schedule, cfg)|
    requires Generated(schedule, cfg)[x].coach == Generated(schedule, cfg)[y].coach
    requires Generated(schedule, cfg)[x].number == Generated(schedule, cfg)[y].number
    ensures x == y
  {
    var k, coach, i := GeneratedAt(schedule, cfg, x);
    var l, coach', j := GeneratedAt(schedule, cfg, y);
    CoachNames(cfg[k].letter, coach, cfg[l].letter, coach');
    assert k == l;
    assert i == j;
  }

  /** Berths are numbered from 1 along the coach, and priced by class and place alone. */
  predicate Regular(c: ClassConfig) {
    forall i :: 0 <= i < |c.berths| ==>
      c.berths[i].number == Decimal(i + 1) && c.berths[i].price == Tariff(c.travelClass, c.berths[i].berthType)
  }

  /** Rupees, in paise. */
  function Tariff(travelClass: string, place: string): nat {
    match travelClass
    case "SL" =>
      if place == "LOWER" then 750_00 else if place == "MIDDLE" then 720_00 else if place == "UPPER" then 700_00
      else if place == "SIDE_LOWER" then 680_00 else 660_00
    case "3AC" =>
      if place == "LOWER" then 1450_00 else if place == "MIDDLE" then 1400_00 else if place == "UPPER" then 1350_00
      else if place == "SIDE_LOWER" then 1300_00 else 1280_00
    case "2AC" => if place == "LOWER" then 2100_00 else 2000_00
    case _ => if place == "LOWER" then 3500_00 else 3300_00
  }

  lemma RegularNumbers(c: ClassConfig, i: nat, j: nat)
    requires Regular(c) && i < j < |c.berths|
    ensures c.berths[i].number != c.berths[j].number
  {
    if c.berths[i].number == c.berths[j].number {
      DecimalInjective(i + 1, j + 1);
    }
  }

  lemma SleeperRegular()
    ensures Regular(DefaultConfig()[0])
  {
  }

  lemma ThirdClassRegular()
    ensures Regular(DefaultConfig()[1])
  {
  }

  lemma UpperClassesRegular()
    ensures Regular(DefaultConfig()[2]) && Regular(DefaultConfig()[3])
  {
  }

  /** The default coaches: 24 + 16 + 4 + 2 berths with different names, at the tariff of their class and place. */
  lemma DefaultNames()
    ensures Lettered(DefaultConfig()) && |DefaultConfig()| == 4
    ensures forall k :: 0 <= k < 4 ==> Regular(DefaultConfig()[k])
  {
    var cfg := DefaultConfig();
    SleeperRegular();
    ThirdClassRegular();
    UpperClassesRegular();
    forall k, i, j | 0 <= k < |cfg| && 0 <= i < j < |cfg[k].berths|
      ensures cfg[k].berths[i].number != cfg[k].berths[j].number
    {
      RegularNumbers(cfg[k], i, j);
    }
  }
}
