/** What the bus inventory job writes for one bus and one day, and that all its counts agree.
    Money is in paise. */
module BusInventory {
  import opened Collections
  import opened BusSeats

  const DAY: int := 86_400_000

  datatype Instance = Instance(bus: nat, date: int, departure: int, arrival: int, kind: SeatType, price: nat,
                               availableSeater: nat, availableSemiSleeper: nat, availableSleeper: nat)
  datatype SeatRow = SeatRow(instance: nat, seat: Seat, available: bool)
  datatype FareRow = FareRow(instance: nat, seatType: SeatType, name: string, price: nat, fee: nat, seatsAvailable: nat)
  datatype Account = Account(purchasedSeats: nat, originalPrice: nat, sellingPrice: nat, spend: nat)

  datatype Config = Config(basePrice: nat, womenTotal: nat, menTotal: nat, generalTotal: nat,
                           womenActive: nat, menActive: nat, generalActive: nat)
  {
    function Total(c: Category): nat {
      match c
      case Women => womenTotal
      case Men => menTotal
      case General => generalTotal
    }

    function Active(c: Category): nat {
      match c
      case Women => womenActive
      case Men => menActive
      case General => generalActive
    }

    function ActiveSeats(): nat { womenActive + menActive + generalActive }
  }

  /** Seat totals, purchased seats and cost price per seat type and kind of day. */
  function ResolvePrebookingConfig(t: SeatType, weekend: bool): (cfg: Config)
    ensures forall c: Category :: cfg.Active(c) <= cfg.Total(c)
    ensures t == Sleeper ==> cfg.womenActive == cfg.menActive == 0
  {
    match t
    case Seater => if weekend then Config(25_000, 8, 8, 24, 5, 5, 14) else Config(25_000, 8, 8, 24, 3, 3, 10)
    case SemiSleeper => if weekend then Config(90_000, 8, 8, 16, 4, 4, 11) else Config(90_000, 8, 8, 16, 3, 3, 7)
    case Sleeper => if weekend then Config(120_000, 0, 0, 16, 0, 0, 10) else Config(120_000, 0, 0, 16, 0, 0, 6)
    case Other(_) => Config(0, 0, 0, 0, 0, 0, 0)
  }

  /** The layouts hold 8 rows of 5, 8 rows of 4 and 16 berths, the first eight seats kept for women and the next eight
      for men where there are such seats; 60% of a layout is bought for weekend days and 40% for others, to the nearest
      seat; layout and cost price do not depend on the day. */
  lemma ConfigTold(t: SeatType, weekend: bool)
    requires !t.Other?
    ensures var cfg := ResolvePrebookingConfig(t, weekend); var all := cfg.womenTotal + cfg.menTotal + cfg.generalTotal;
            && all == (match t case Seater => 8 * 5 case SemiSleeper => 8 * 4 case _ => 16)
            && cfg.womenTotal == cfg.menTotal == (if t == Sleeper then 0 else 8)
            && cfg.ActiveSeats() == RoundDiv((if weekend then 60 else 40) * all, 100)
            && cfg.womenActive == cfg.menActive <= cfg.generalActive
            && cfg.basePrice == (match t case Seater => 250_00 case SemiSleeper => 900_00 case _ => 1_200_00)
    ensures forall c: Category ::
              ResolvePrebookingConfig(t, false).Active(c) <= ResolvePrebookingConfig(t, true).Active(c)
    ensures t != Sleeper ==> ResolvePrebookingConfig(t, false).womenActive == 3
                             && ResolvePrebookingConfig(t, true).womenActive == (if t == Seater then 5 else 4)
  {
  }

  /** Nothing is bought of other types. */
  lemma OtherTypesEmpty(t: SeatType, weekend: bool, c: Category)
    requires t.Other?
    ensures var cfg := ResolvePrebookingConfig(t, weekend);
            cfg.basePrice == cfg.Total(c) == cfg.Active(c) == 0 && BlocksOf(t, cfg) == []
  {
  }

  function BlocksOf(t: SeatType, cfg: Config): seq<Block> {
    match t
    case Sleeper => [Block(General, cfg.generalTotal)]
    case Other(_) => []
    case _ => [Block(Women, cfg.womenTotal), Block(Men, cfg.menTotal), Block(General, cfg.generalTotal)]
  }

  predicate Listed(rows: seq<SeatRow>, instance: nat, c: Category, i: int) {
    0 <= i < |rows| && rows[i].instance == instance && rows[i].seat.category == c
  }

  /** The rows of one instance and category, in table order. */
  function Listing(rows: seq<SeatRow>, instance: nat, c: Category): seq<nat> {
    if rows == [] then []
    else
      var n := |rows| - 1;
      Listing(rows[..n], instance, c) + if Listed(rows, instance, c, n) then [n] else []
  }

  function Free(rows: seq<SeatRow>, instance: nat, c: Category): set<nat> {
    set i: nat | i < |rows| && Listed(rows, instance, c, i) && rows[i].available
  }

  function AllFree(rows: seq<SeatRow>, instance: nat): set<nat> {
    set i: nat | i < |rows| && rows[i].instance == instance && rows[i].available
  }

  lemma {:induction false} ListingExact(rows: seq<SeatRow>, instance: nat, c: Category)
    ensures NoDup(Listing(rows, instance, c))
    ensures forall i :: i in Listing(rows, instance, c) <==> Listed(rows, instance, c, i)
    decreases |rows|
  {
    if rows != [] {
      var n := |rows| - 1;
      ListingExact(rows[..n], instance, c);
      assert forall i :: Listed(rows[..n], instance, c, i) <==> i != n && Listed(rows, instance, c, i);
      forall i, j | 0 <= i < j < |Listing(rows, instance, c)|
        ensures Listing(rows, instance, c)[i] != Listing(rows, instance, c)[j]
      {
        assert Listing(rows, instance, c)[i] in Listing(rows[..n], instance, c);
      }
    }
  }

  function NewRows(instance: nat, seats: seq<Seat>): seq<SeatRow> {
    seq(|seats|, i requires 0 <= i < |seats| => SeatRow(instance, seats[i], true))
  }

  lemma {:induction false} ListingAppend(rows: seq<SeatRow>, more: seq<SeatRow>, instance: nat, c: Category,
                                         listed: bool)
    requires forall i :: 0 <= i < |more| ==> Listed(more, instance, c, i) == listed
    ensures |Listing(rows + more, instance, c)| == |Listing(rows, instance, c)| + if listed then |more| else 0
    decreases |more|
  {
    if more == [] {
      assert rows + more == rows;
    } else {
      var init := more[..|more| - 1];
      assert (rows + more)[..|rows + more| - 1] == rows + init;
      assert forall i :: 0 <= i < |init| ==> Listed(init, instance, c, i) == Listed(more, instance, c, i);
      assert Listed(more, instance, c, |init|) == listed;
      ListingAppend(rows, init, instance, c, listed);
    }
  }

  function TotalIn(blocks: seq<Block>, c: Category): nat {
    if blocks == [] then 0
    else
      var last := blocks[|blocks| - 1];
      TotalIn(blocks[..|blocks| - 1], c) + if last.category == c then last.total else 0
  }

  lemma BlockRows(instance: nat, t: SeatType, blocks: seq<Block>, b: Block, c: Category)
    ensures var more := NewRows(instance, BlockSeats(t, b.category, Size(blocks), b.total));
            |more| == b.total
            && (forall i :: 0 <= i < |more| ==> Listed(more, instance, c, i) == (b.category == c))
            && NewRows(instance, FlatSeats(t, blocks + [b])) == NewRows(instance, FlatSeats(t, blocks)) + more
  {
    OneMoreBlock(t, blocks, b);
    BlockCategory(t, b.category, Size(blocks), b.total);
    var seats := BlockSeats(t, b.category, Size(blocks), b.total);
    var more := NewRows(instance, seats);
    forall i | 0 <= i < |more|
      ensures Listed(more, instance, c, i) == (b.category == c)
    {
      assert more[i].seat == seats[i];
    }
    assert NewRows(instance, FlatSeats(t, blocks) + seats) == NewRows(instance, FlatSeats(t, blocks)) + more;
  }

  lemma BlockCategory(t: SeatType, c: Category, start: nat, n: nat)
    ensures forall i :: 0 <= i < n ==> BlockSeats(t, c, start, n)[i].category == c
  {
    forall i | 0 <= i < n
      ensures BlockSeats(t, c, start, n)[i].category == c
    {
      assert BlockSeats(t, c, start, n)[i] == FlatSeat(t, c, start + i);
    }
  }

  /** A fresh instance lists as many rows of a category as its blocks hold. */
  lemma {:induction false} ListingOfBlocks(rows: seq<SeatRow>, instance: nat, t: SeatType, blocks: seq<Block>,
                                           c: Category)
    requires forall i :: 0 <= i < |rows| ==> rows[i].instance != instance
    ensures |Listing(rows + NewRows(instance, FlatSeats(t, blocks)), instance, c)| == TotalIn(blocks, c)
    decreases |blocks|
  {
    if blocks == [] {
      assert rows + NewRows(instance, FlatSeats(t, blocks)) == rows;
      ListingExact(rows, instance, c);
      NoDupCardinality(Listing(rows, instance, c));
      assert SetOf(Listing(rows, instance, c)) == {};
    } else {
      var init, last := blocks[..|blocks| - 1], blocks[|blocks| - 1];
      ListingOfBlocks(rows, instance, t, init, c);
      var before, more := NewRows(instance, FlatSeats(t, init)),
                          NewRows(instance, BlockSeats(t, last.category, Size(init), last.total));
      assert blocks == init + [last];
      BlockRows(instance, t, init, last, c);
      ListingAppend(rows + before, more, instance, c, last.category == c);
      assert rows + (before + more) == (rows + before) + more;
    }
  }

  /** ORDER BY: the same rows in some order. */
  ghost predicate Reorders(sort: seq<nat> -> seq<nat>) {
    forall s: seq<nat> :: |sort(s)| == |s| && SetOf(sort(s)) == SetOf(s)
  }

  function Deactivated(rows: seq<SeatRow>, ids: seq<nat>): (r: seq<SeatRow>)
    ensures |r| == |rows|
    ensures forall i :: 0 <= i < |rows| ==> r[i] == if i in ids then rows[i].(available := false) else rows[i]
  {
    seq(|rows|, i requires 0 <= i < |rows| => if i in ids then rows[i].(available := false) else rows[i])
  }

  function Kept(keep: nat, n: nat): nat {
    if keep < n then keep else n
  }

  lemma SortedListing(rows: seq<SeatRow>, instance: nat, c: Category, sort: seq<nat> -> seq<nat>)
    requires Reorders(sort)
    ensures var ids := sort(Listing(rows, instance, c));
            && NoDup(ids) && |ids| == |Listing(rows, instance, c)|
            && forall i :: i in ids <==> Listed(rows, instance, c, i)
  {
    var listing := Listing(rows, instance, c);
    ListingExact(rows, instance, c);
    NoDupCardinality(listing);
    DistinctByCount(sort(listing));
    forall i
      ensures i in sort(listing) <==> i in listing
    {
      if i in sort(listing) {
        assert i in SetOf(sort(listing));
      }
      if i in listing {
        assert i in SetOf(listing);
      }
    }
  }

  /** Keeping the first rows of an ordered listing leaves that many free, whatever the order. */
  lemma KeptFree(rows: seq<SeatRow>, instance: nat, c: Category, ids: seq<nat>, kept: nat)
    requires NoDup(ids) && kept <= |ids|
    requires forall i :: i in ids <==> Listed(rows, instance, c, i)
    requires forall i :: 0 <= i < |rows| && Listed(rows, instance, c, i) ==> rows[i].available
    ensures |Free(Deactivated(rows, ids[kept..]), instance, c)| == kept
  {
    assert ids == ids[..kept] + ids[kept..];
    var rows' := Deactivated(rows, ids[kept..]);
    forall i | i in ids[..kept]
      ensures i !in ids[kept..]
    {
      var j :| 0 <= j < kept && ids[j] == i;
    }
    forall i: nat
      ensures i in Free(rows', instance, c) <==> i in SetOf(ids[..kept])
    {
      assert Listed(rows', instance, c, i) <==> Listed(rows, instance, c, i);
      assert i in ids <==> i in ids[..kept] || i in ids[kept..];
    }
    assert Free(rows', instance, c) == SetOf(ids[..kept]);
    NoDupCardinality(ids[..kept]);
  }

  /** Deactivating rows of one category says nothing about rows of another category or instance. */
  lemma OthersStay(rows: seq<SeatRow>, ids: seq<nat>, instance: nat, c: Category, other: nat, d: Category)
    requires forall i :: i in ids ==> Listed(rows, instance, c, i)
    requires other != instance || d != c
    ensures Free(Deactivated(rows, ids), other, d) == Free(rows, other, d)
    ensures Listing(Deactivated(rows, ids), other, d) == Listing(rows, other, d)
  {
    var rows' := Deactivated(rows, ids);
    forall i: nat
      ensures i in Free(rows', other, d) <==> i in Free(rows, other, d)
    {
      assert Listed(rows', other, d, i) <==> Listed(rows, other, d, i);
    }
    SameListing(rows, rows', other, d);
  }

  lemma {:induction false} SameListing(rows: seq<SeatRow>, rows': seq<SeatRow>, instance: nat, c: Category)
    requires SameSeats(rows, rows')
    ensures Listing(rows', instance, c) == Listing(rows, instance, c)
    decreases |rows|
  {
    if rows != [] {
      SameListing(rows[..|rows| - 1], rows'[..|rows| - 1], instance, c);
    }
  }

  /** Only availability differs. */
  predicate SameSeats(rows: seq<SeatRow>, rows': seq<SeatRow>) {
    && |rows'| == |rows|
    && forall i :: 0 <= i < |rows| ==> rows'[i].instance == rows[i].instance && rows'[i].seat == rows[i].seat
  }

  predicate Fresh(rows: seq<SeatRow>, instance: nat, c: Category) {
    forall i :: 0 <= i < |rows| && Listed(rows, instance, c, i) ==> rows[i].available
  }

  function Marked(rows: seq<SeatRow>, instance: nat, c: Category, keepCount: nat,
                  sort: seq<nat> -> seq<nat>): seq<SeatRow>
  {
    var ids := sort(Listing(rows, instance, c));
    Deactivated(rows, ids[Kept(keepCount, |ids|)..])
  }

  /** What one pass of switching off does to every category of every instance. */
  lemma MarkedCounts(rows: seq<SeatRow>, instance: nat, c: Category, keepCount: nat, sort: seq<nat> -> seq<nat>)
    requires Reorders(sort) && Fresh(rows, instance, c)
    ensures var rows' := Marked(rows, instance, c, keepCount, sort);
            && SameSeats(rows, rows')
            && |Free(rows', instance, c)| == Kept(keepCount, |Listing(rows, instance, c)|)
            && (forall other: nat, d: Category :: other != instance || d != c ==>
                  Free(rows', other, d) == Free(rows, other, d))
            && (forall other: nat, d: Category :: Listing(rows', other, d) == Listing(rows, other, d))
            && (forall d: Category :: d != c && Fresh(rows, instance, d) ==> Fresh(rows', instance, d))
  {
    var ids := sort(Listing(rows, instance, c));
    SortedListing(rows, instance, c, sort);
    var off := ids[Kept(keepCount, |ids|)..];
    assert forall i :: i in off ==> i in ids;
    KeptFree(rows, instance, c, ids, Kept(keepCount, |ids|));
    var rows' := Deactivated(rows, off);
    forall other: nat, d: Category | other != instance || d != c
      ensures Free(rows', other, d) == Free(rows, other, d)
    {
      OthersStay(rows, off, instance, c, other, d);
    }
    forall other: nat, d: Category
      ensures Listing(rows', other, d) == Listing(rows, other, d)
    {
      SameListing(rows, rows', other, d);
    }
    forall d: Category, i | d != c && Fresh(rows, instance, d) && 0 <= i < |rows'| && Listed(rows', instance, d, i)
      ensures rows'[i].available
    {
      assert Listed(rows, instance, d, i) && !Listed(rows, instance, c, i);
    }
  }

  ghost predicate SameElsewhere(rows: seq<SeatRow>, rows': seq<SeatRow>, instance: nat) {
    forall other: nat, c: Category :: other != instance ==> Free(rows', other, c) == Free(rows, other, c)
  }

  lemma NothingListed(rows: seq<SeatRow>, instance: nat, c: Category)
    requires Listing(rows, instance, c) == []
    ensures Free(rows, instance, c) == {}
  {
    ListingExact(rows, instance, c);
  }

  lemma TotalSnoc(blocks: seq<Block>, b: Block, c: Category)
    ensures TotalIn(blocks + [b], c) == TotalIn(blocks, c) + if b.category == c then b.total else 0
  {
    assert (blocks + [b])[..|blocks|] == blocks;
  }

  /** What the blocks of each bus type hold. */
  lemma TotalsOf(t: SeatType, cfg: Config, c: Category)
    ensures TotalIn(BlocksOf(t, cfg), c) == if t.Other? || (t == Sleeper && c != General) then 0 else cfg.Total(c)
  {
    var w, m, g := Block(Women, cfg.womenTotal), Block(Men, cfg.menTotal), Block(General, cfg.generalTotal);
    if t == Sleeper {
      TotalSnoc([], g, c);
      assert [] + [g] == [g];
    } else if !t.Other? {
      TotalSnoc([], w, c);
      TotalSnoc([] + [w], m, c);
      TotalSnoc([] + [w] + [m], g, c);
      assert BlocksOf(t, cfg) == [] + [w] + [m] + [g];
    }
  }

  lemma AllFreeSplits(rows: seq<SeatRow>, instance: nat)
    ensures |AllFree(rows, instance)|
            == |Free(rows, instance, Women)| + |Free(rows, instance, Men)| + |Free(rows, instance, General)|
  {
    var w, m, g := Free(rows, instance, Women), Free(rows, instance, Men), Free(rows, instance, General);
    assert AllFree(rows, instance) == w + m + g;
    assert w !! m && (w + m) !! g;
  }

  function CounterOf(inst: Instance): nat {
    match inst.kind
    case Seater => inst.availableSeater
    case SemiSleeper => inst.availableSemiSleeper
    case Sleeper => inst.availableSleeper
    case Other(_) => 0
  }

  function CounterSum(inst: Instance): nat {
    inst.availableSeater + inst.availableSemiSleeper + inst.availableSleeper
  }

  function FaresOf(fares: seq<FareRow>, instance: nat): set<nat> {
    set i: nat | i < |fares| && fares[i].instance == instance
  }

  function CancellationFeeFor(t: SeatType): nat {
    match t
    case Sleeper => 5_000
    case SemiSleeper => 4_000
    case _ => 2_500
  }

  /** Sleepers get a plain and a FLEXI fare, 300 apart, the others one plain fare. */
  function FaresFor(instance: nat, t: SeatType, price: nat, active: nat): seq<FareRow> {
    [FareRow(instance, t, "GENERAL", price, CancellationFeeFor(t), active)]
    + if t == Sleeper then [FareRow(instance, t, "FLEXI", price + 30_000, 10_000, active)] else []
  }

  /** Cost price plus 30%. */
  function SellingPrice(cfg: Config): nat {
    cfg.basePrice + cfg.basePrice * 30 / 100
  }

  /** What a new bus sells: a plain fare at cost plus 30%, and on sleepers a FLEXI fare 300 rupees dearer, all with the
      purchased seats. */
  lemma FaresTold(instance: nat, t: SeatType, weekend: bool)
    requires !t.Other?
    ensures var cfg := ResolvePrebookingConfig(t, weekend);
            var fares := FaresFor(instance, t, SellingPrice(cfg), cfg.ActiveSeats());
            && |fares| == (if t == Sleeper then 2 else 1)
            && fares[0].name == "GENERAL" && 100 * fares[0].price == 130 * cfg.basePrice
            && fares[0].fee == (match t case Seater => 25_00 case SemiSleeper => 40_00 case _ => 50_00)
            && (t == Sleeper ==>
                  fares[1].name == "FLEXI" && fares[1].price == fares[0].price + 300_00 && fares[1].fee == 100_00)
            && forall f :: f in fares ==>
                 f.instance == instance && f.seatType == t && f.seatsAvailable == cfg.ActiveSeats()
  {
  }

  predicate Recognised(t: SeatType) {
    !t.Other?
  }

  class InventoryJob {
    var instances: seq<Instance>
    var accounts: seq<Account>
    var seats: seq<SeatRow>
    var fares: seq<FareRow>

    constructor ()
      ensures instances == [] && accounts == [] && seats == [] && fares == []
    {
      instances, accounts, seats, fares := [], [], [], [];
    }

    /** Foreign keys: every row belongs to an instance, and accounts stand beside their instances. */
    ghost predicate Valid()
      reads this
    {
      && |accounts| == |instances|
      && (forall i :: 0 <= i < |seats| ==> seats[i].instance < |instances|)
      && (forall i :: 0 <= i < |fares| ==> fares[i].instance < |instances|)
    }

    /** Every count kept for instance n is the number of its seats left available. */
    ghost predicate Agrees(n: nat)
      requires n < |instances| && n < |accounts|
      reads this
    {
      var inst, free := instances[n], |AllFree(seats, n)|;
      && CounterOf(inst) == free && CounterSum(inst) == free
      && accounts[n].purchasedSeats == free
      && FaresOf(fares, n) != {}
      && forall i :: i in FaresOf(fares, n) ==> fares[i].seatsAvailable == free
    }

    /** The rows of new instance n: its account, all seats of its layout with the purchased ones of each category
        available, and its fares. */
    ghost predicate WrittenFor(n: nat, t: SeatType, cfg: Config, accounts0: seq<Account>, seats0: seq<SeatRow>,
                               fares0: seq<FareRow>)
      reads this
    {
      && accounts == accounts0
         + [Account(cfg.ActiveSeats(), cfg.basePrice, SellingPrice(cfg), cfg.ActiveSeats() * cfg.basePrice)]
      && SameSeats(seats0 + NewRows(n, FlatSeats(t, BlocksOf(t, cfg))), seats)
      && (forall c: Category :: |Free(seats, n, c)| == cfg.Active(c))
      && fares == fares0 + FaresFor(n, t, SellingPrice(cfg), cfg.ActiveSeats())
    }

    method MarkInactive(instance: nat, c: Category, keepCount: nat, sort: seq<nat> -> seq<nat>)
      modifies this`seats
      ensures seats == Marked(old(seats), instance, c, keepCount, sort)
    {
      var ids := sort(Listing(seats, instance, c));
      SwitchOff(ids[Kept(keepCount, |ids|)..]);
    }

    method SwitchOff(toDeactivate: seq<nat>)
      modifies this`seats
      ensures seats == Deactivated(old(seats), toDeactivate)
    {
      for k := 0 to |toDeactivate|
        invariant |seats| == |old(seats)|
        invariant forall i :: 0 <= i < |seats| ==>
                    seats[i] == if i in toDeactivate[..k] then old(seats)[i].(available := false) else old(seats)[i]
      {
        var id := toDeactivate[k];
        assert toDeactivate[..k + 1] == toDeactivate[..k] + [id];
        if id < |seats| {
          seats := seats[id := seats[id].(available := false)];
        }
      }
      assert toDeactivate[..|toDeactivate|] == toDeactivate;
    }

    /** Keep the purchased seats of each category and switch the rest off. */
    method MarkAll(instance: nat, t: SeatType, cfg: Config, sort: seq<nat> -> seq<nat>)
      requires Reorders(sort) && Recognised(t) && (forall c: Category :: cfg.Active(c) <= cfg.Total(c))
      requires t == Sleeper ==> cfg.womenActive == cfg.menActive == 0
      requires forall c: Category ::
                 Fresh(seats, instance, c) && |Listing(seats, instance, c)| == TotalIn(BlocksOf(t, cfg), c)
      modifies this`seats
      ensures SameSeats(old(seats), seats) && SameElsewhere(old(seats), seats, instance)
      ensures forall c: Category :: |Free(seats, instance, c)| == cfg.Active(c)
    {
      TotalsOf(t, cfg, Women);
      TotalsOf(t, cfg, Men);
      TotalsOf(t, cfg, General);
      if t == Sleeper {
        NothingListed(seats, instance, Women);
        NothingListed(seats, instance, Men);
        MarkedCounts(seats, instance, General, cfg.generalActive, sort);
        MarkInactive(instance, General, cfg.generalActive, sort);
      } else {
        MarkThree(instance, cfg, sort);
      }
    }

    method MarkThree(instance: nat, cfg: Config, sort: seq<nat> -> seq<nat>)
      requires Reorders(sort)
      requires forall c: Category :: Fresh(seats, instance, c) && cfg.Active(c) <= |Listing(seats, instance, c)|
      modifies this`seats
      ensures SameSeats(old(seats), seats) && SameElsewhere(old(seats), seats, instance)
      ensures forall c: Category :: |Free(seats, instance, c)| == cfg.Active(c)
    {
      MarkedCounts(seats, instance, Women, cfg.womenActive, sort);
      MarkInactive(instance, Women, cfg.womenActive, sort);
      MarkedCounts(seats, instance, Men, cfg.menActive, sort);
      MarkInactive(instance, Men, cfg.menActive, sort);
      MarkedCounts(seats, instance, General, cfg.generalActive, sort);
      MarkInactive(instance, General, cfg.generalActive, sort);
    }

    method InsertSeats(instance: nat, t: SeatType, cfg: Config)
      modifies this`seats
      ensures seats == old(seats) + NewRows(instance, FlatSeats(t, BlocksOf(t, cfg)))
    {
      var all := BuildSeats(t, BlocksOf(t, cfg));
      seats := seats + NewRows(instance, all);
    }

    method InsertFares(instance: nat, t: SeatType, sellingPrice: nat, active: nat)
      modifies this`fares
      ensures fares == old(fares) + FaresFor(instance, t, sellingPrice, active)
    {
      if t == Sleeper {
        var sleeperFares := [FareRow(instance, t, "GENERAL", sellingPrice, 5_000, active),
                             FareRow(instance, t, "FLEXI", sellingPrice + 30_000, 10_000, active)];
        fares := fares + sleeperFares;
      } else {
        fares := fares + [FareRow(instance, t, "GENERAL", sellingPrice, CancellationFeeFor(t), active)];
      }
    }

    method GenerateForDate(bus: nat, date: int, weekday: nat, layout: set<SeatType>, departure: Option<int>,
                           arrival: Option<int>, sort: seq<nat> -> seq<nat>)
      returns (ok: bool)
      requires Valid() && Reorders(sort)
      modifies this
      ensures Valid()
      ensures ok <==> !(exists i ::
                          0 <= i < |old(instances)| && old(instances)[i].bus == bus && old(instances)[i].date == date)
                      && (exists t :: t in layout && Recognised(t)) && departure.Some? && arrival.Some?
                      && departure.value < (if arrival.value <= departure.value then arrival.value + DAY
                                            else arrival.value)
      ensures !ok ==> instances == old(instances) && accounts == old(accounts)
      ensures !ok ==> seats == old(seats) && fares == old(fares)
      ensures ok ==> |instances| == |old(instances)| + 1 && instances[..|old(instances)|] == old(instances)
                     && Agrees(|old(instances)|)
      ensures ok ==> var n := |old(instances)|; var inst := instances[n];
                     && inst.kind in layout && Recognised(inst.kind) && inst.bus == bus && inst.date == date
                     && inst.departure == departure.value < inst.arrival && (inst.arrival - arrival.value) in {0, DAY}
                     && WrittenFor(n, inst.kind, ResolvePrebookingConfig(inst.kind, weekday == 6 || weekday == 7),
                                   old(accounts), old(seats), old(fares))
      ensures forall n: nat :: n < |old(instances)| && old(Agrees(n)) ==> Agrees(n)
    {
      if exists i :: 0 <= i < |instances| && instances[i].bus == bus && instances[i].date == date {
        return false;
      }
      if !exists t :: t in layout && Recognised(t) {
        return false;
      }
      var t :| t in layout && Recognised(t);
      if departure.None? || arrival.None? {
        return false;
      }
      var arrivalAt := arrival.value;
      if arrivalAt <= departure.value {
        arrivalAt := arrivalAt + DAY;
      }
      if arrivalAt <= departure.value {
        return false;
      }
      var cfg := ResolvePrebookingConfig(t, weekday == 6 || weekday == 7);
      var sellingPrice := SellingPrice(cfg);
      var n := |instances|;
      WriteRows(n, t, cfg, sellingPrice, Instance(bus, date, departure.value, arrivalAt, t, sellingPrice, 0, 0, 0),
                sort);
      return true;
    }

    /** Steps A to E of the transaction. */
    method WriteRows(n: nat, t: SeatType, cfg: Config, sellingPrice: nat, row: Instance, sort: seq<nat> -> seq<nat>)
      requires Valid() && Reorders(sort) && n == |instances| && Recognised(t) && row.kind == t
      requires CounterSum(row) == 0 && exists weekend :: cfg == ResolvePrebookingConfig(t, weekend)
      modifies this
      requires sellingPrice == SellingPrice(cfg)
      ensures Valid() && |instances| == n + 1 && instances[..n] == old(instances) && Agrees(n)
      ensures var inst := instances[n]; inst.kind == t && inst.bus == row.bus && inst.date == row.date
                                        && inst.departure == row.departure && inst.arrival == row.arrival
      ensures WrittenFor(n, t, cfg, old(accounts), old(seats), old(fares))
      ensures forall m: nat :: m < n && old(Agrees(m)) ==> Agrees(m)
    {
      instances := instances + [row];
      accounts := accounts + [Account(cfg.ActiveSeats(), cfg.basePrice, sellingPrice,
                                      cfg.ActiveSeats() * cfg.basePrice)];
      WriteSeats(n, t, cfg, sort);
      UpdateCounter(n, t, cfg.ActiveSeats());
      InsertFares(n, t, sellingPrice, cfg.ActiveSeats());
      assert |old(fares)| in FaresOf(fares, n);
      forall m: nat | m < n
        ensures FaresOf(fares, m) == FaresOf(old(fares), m)
        ensures forall i :: i in FaresOf(fares, m) ==> fares[i] == old(fares)[i]
      {
      }
    }

    /** Steps C and C2: all seats, then the ones not purchased switched off. */
    method WriteSeats(n: nat, t: SeatType, cfg: Config, sort: seq<nat> -> seq<nat>)
      requires Reorders(sort) && Recognised(t) && exists weekend :: cfg == ResolvePrebookingConfig(t, weekend)
      requires forall i :: 0 <= i < |seats| ==> seats[i].instance < n
      modifies this`seats
      ensures forall i :: 0 <= i < |seats| ==> seats[i].instance <= n
      ensures SameSeats(old(seats) + NewRows(n, FlatSeats(t, BlocksOf(t, cfg))), seats)
      ensures forall c: Category :: |Free(seats, n, c)| == cfg.Active(c)
      ensures |AllFree(seats, n)| == cfg.ActiveSeats()
      ensures forall m: nat :: m < n ==> AllFree(seats, m) == AllFree(old(seats), m)
    {
      InsertSeats(n, t, cfg);
      ghost var before, blocks := seats, BlocksOf(t, cfg);
      forall c: Category
        ensures Fresh(seats, n, c) && |Listing(seats, n, c)| == TotalIn(blocks, c)
      {
        ListingOfBlocks(old(seats), n, t, blocks, c);
      }
      MarkAll(n, t, cfg, sort);
      AllFreeSplits(seats, n);
      forall m: nat | m < n
        ensures AllFree(seats, m) == AllFree(old(seats), m)
      {
        FreeByCategory(before, seats, m);
        assert AllFree(before, m) == AllFree(old(seats), m);
      }
    }

    method UpdateCounter(n: nat, t: SeatType, active: nat)
      requires n < |instances| && instances[n].kind == t && Recognised(t) && CounterSum(instances[n]) == 0
      modifies this`instances
      ensures |instances| == |old(instances)| && instances[..n] == old(instances)[..n]
      ensures CounterOf(instances[n]) == CounterSum(instances[n]) == active
      ensures var inst, was := instances[n], old(instances)[n];
              inst.kind == was.kind && inst.bus == was.bus && inst.date == was.date
              && inst.departure == was.departure && inst.arrival == was.arrival
    {
      if t == Seater {
        instances := instances[n := instances[n].(availableSeater := active)];
      } else if t == SemiSleeper {
        instances := instances[n := instances[n].(availableSemiSleeper := active)];
      } else {
        instances := instances[n := instances[n].(availableSleeper := active)];
      }
    }
  }

  lemma FreeByCategory(rows: seq<SeatRow>, rows': seq<SeatRow>, instance: nat)
    requires forall c: Category :: Free(rows', instance, c) == Free(rows, instance, c)
    ensures AllFree(rows', instance) == AllFree(rows, instance)
  {
    assert AllFree(rows, instance)
           == Free(rows, instance, Women) + Free(rows, instance, Men) + Free(rows, instance, General);
    assert AllFree(rows', instance)
           == Free(rows', instance, Women) + Free(rows', instance, Men) + Free(rows', instance, General);
  }
}
