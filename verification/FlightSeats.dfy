/** Seats of a new flight: each class filled row by row up to its quota, aisle gaps skipped. */
module FlightSeats {
  import opened Collections
  import opened Decimals

  datatype Class = Economy | Business
  datatype Seat = Seat(number: string, seatClass: Class)
  /** Column labels in order; the empty string is an aisle. */
  datatype Cabin = Cabin(rows: int, columns: seq<string>)

  /** 30% of rows times columns, cut towards zero. */
  function Quota(cabin: Option<Cabin>): int {
    if cabin.None? then 0
    else
      var places := cabin.value.rows * |cabin.value.columns|;
      if places >= 0 then places * 3 / 10 else 0 - (0 - places) * 3 / 10
  }

  /** Three tenths of the places, to the whole seat towards zero; nothing without a cabin. */
  lemma QuotaTold(cabin: Cabin)
    ensures var q, places := Quota(Some(cabin)), cabin.rows * |cabin.columns|;
            if places >= 0 then 10 * q <= 3 * places < 10 * q + 10 else 10 * q - 10 < 3 * places <= 10 * q
    ensures Quota(None) == 0
  {
  }

  function Real(columns: seq<string>): seq<string> {
    if columns == [] then []
    else Real(columns[..|columns| - 1]) + if columns[|columns| - 1] == "" then [] else [columns[|columns| - 1]]
  }

  function RowSeats(row: nat, labels: seq<string>, c: Class): seq<Seat> {
    seq(|labels|, i requires 0 <= i < |labels| => Seat(Decimal(row) + labels[i], c))
  }

  /** Every real seat of the first rows of a cabin, numbered from start. */
  function FullCabin(start: nat, rows: nat, labels: seq<string>, c: Class): seq<Seat> {
    if rows == 0 then [] else FullCabin(start, rows - 1, labels, c) + RowSeats(start + rows - 1, labels, c)
  }

  function Take(s: seq<Seat>, n: nat): seq<Seat> {
    if n < |s| then s[..n] else s
  }

  lemma {:induction false} FullCabinSize(start: nat, rows: nat, labels: seq<string>, c: Class)
    ensures |FullCabin(start, rows, labels, c)| == rows * |labels|
    decreases rows
  {
    if rows > 0 {
      FullCabinSize(start, rows - 1, labels, c);
      assert rows * |labels| == (rows - 1) * |labels| + |labels|;
    }
  }

  lemma {:induction false} RowsArePrefix(start: nat, rows: nat, more: nat, labels: seq<string>, c: Class)
    requires rows <= more
    ensures FullCabin(start, rows, labels, c) <= FullCabin(start, more, labels, c)
    decreases more
  {
    if rows < more {
      RowsArePrefix(start, rows, more - 1, labels, c);
    }
  }

  /** Once full, what comes later in the cabin does not matter. */
  lemma TakeOfPrefix(s: seq<Seat>, t: seq<Seat>, n: nat)
    requires s <= t && n <= |s|
    ensures Take(s, n) == Take(t, n)
  {
  }

  /** What one class gets: the first quota real seats of its cabin, in row order. */
  function ClassSeats(cabin: Option<Cabin>, start: nat, c: Class): seq<Seat> {
    if cabin.None? || Quota(cabin) <= 0 || cabin.value.rows <= 0 then []
    else Take(FullCabin(start, cabin.value.rows, Real(cabin.value.columns), c), Quota(cabin))
  }

  /** The row economy numbering starts from. */
  function EconomyStart(business: Option<Cabin>): nat {
    if business.Some? && Quota(business) > 0 && business.value.rows >= 0 then business.value.rows + 1 else 1
  }

  function FlightSeats(economy: Option<Cabin>, business: Option<Cabin>): seq<Seat> {
    ClassSeats(business, 1, Business) + ClassSeats(economy, EconomyStart(business), Economy)
  }

  /** One row of the loops: skip aisles, stop when the quota is reached. */
  method EmitRow(seats: seq<Seat>, row: nat, columns: seq<string>, count: nat, quota: nat, c: Class)
    returns (r: seq<Seat>, n: nat)
    requires count == |seats| < quota
    ensures r == Take(seats + RowSeats(row, Real(columns), c), quota) && n == |r|
  {
    r, n := seats, count;
    for j := 0 to |columns|
      invariant n == |r|
      invariant r == Take(seats + RowSeats(row, Real(columns[..j]), c), quota)
    {
      var col := columns[j];
      assert columns[..j + 1][..j] == columns[..j];
      ghost var visited, visited' := RowSeats(row, Real(columns[..j]), c), RowSeats(row, Real(columns[..j + 1]), c);
      if col == "" {
        assert Real(columns[..j + 1]) == Real(columns[..j]);
        continue;
      }
      assert visited' == visited + [Seat(Decimal(row) + col, c)];
      assert seats + visited' == (seats + visited) + [Seat(Decimal(row) + col, c)];
      if n >= quota {
        RealGrows(columns, j + 1);
        RowGrows(row, Real(columns[..j + 1]), Real(columns), c);
        TakeOfPrefix(seats + visited, seats + visited', quota);
        TakeOfPrefix(seats + visited', seats + RowSeats(row, Real(columns), c), quota);
        return;
      }
      r := r + [Seat(Decimal(row) + col, c)];
      n := n + 1;
    }
    assert columns[..|columns|] == columns;
  }

  lemma {:induction false} RealGrows(columns: seq<string>, j: nat)
    requires j <= |columns|
    ensures Real(columns[..j]) <= Real(columns)
    decreases |columns| - j
  {
    if j == |columns| {
      assert columns[..j] == columns;
    } else {
      assert columns[..j + 1][..j] == columns[..j];
      RealGrows(columns, j + 1);
    }
  }

  lemma RowGrows(row: nat, a: seq<string>, b: seq<string>, c: Class)
    requires a <= b
    ensures RowSeats(row, a, c) <= RowSeats(row, b, c)
  {
  }

  /** The loops of one class; nextRow is the row after the last one started. */
  method EmitClass(cabin: Cabin, start: nat, quota: nat, c: Class) returns (seats: seq<Seat>, nextRow: nat)
    requires quota > 0
    ensures seats == if cabin.rows <= 0 then [] else Take(FullCabin(start, cabin.rows, Real(cabin.columns), c), quota)
    ensures start <= nextRow && nextRow - start <= if cabin.rows <= 0 then 0 else cabin.rows
  {
    var labels := Real(cabin.columns);
    var count, r := 0, 0;
    seats, nextRow := [], start;
    while r < cabin.rows && count < quota
      invariant nextRow == start + r && (r <= cabin.rows || r == 0) && count == |seats|
      invariant seats == Take(FullCabin(start, r, labels, c), quota)
      decreases cabin.rows - r
    {
      ghost var before := FullCabin(start, r, labels, c);
      assert seats == before;
      seats, count := EmitRow(seats, nextRow, cabin.columns, count, quota, c);
      assert FullCabin(start, r + 1, labels, c) == before + RowSeats(nextRow, labels, c);
      nextRow := nextRow + 1;
      r := r + 1;
    }
    if 0 < cabin.rows {
      RowsArePrefix(start, r, cabin.rows, labels, c);
      if r < cabin.rows {
        TakeOfPrefix(FullCabin(start, r, labels, c), FullCabin(start, cabin.rows, labels, c), quota);
      }
    }
  }

  method GenerateSeats(economy: Option<Cabin>, business: Option<Cabin>) returns (seats: seq<Seat>)
    ensures seats == FlightSeats(economy, business)
  {
    seats := [];
    var currentRow := 1;
    var quota := Quota(business);
    if business.Some? && quota > 0 {
      var made, nextRow := EmitClass(business.value, currentRow, quota, Business);
      seats := made;
      currentRow := nextRow;
      var remainingRows := business.value.rows - (currentRow - 1);
      currentRow := currentRow + remainingRows;
    }
    quota := Quota(economy);
    if economy.Some? && quota > 0 {
      var made, _ := EmitClass(economy.value, currentRow, quota, Economy);
      seats := seats + made;
    }
  }

  // ---- Counts ----------------------------------------------------------------------------------------

  /** A class gets its quota, or every real seat if there are fewer. */
  lemma ClassSize(cabin: Cabin, start: nat, c: Class)
    ensures var q, all := Quota(Some(cabin)), cabin.rows * |Real(cabin.columns)|;
            |ClassSeats(Some(cabin), start, c)| == if q <= 0 then 0 else if all < q then all else q
  {
    var q := Quota(Some(cabin));
    if cabin.rows > 0 && q > 0 {
      FullCabinSize(start, cabin.rows, Real(cabin.columns), c);
    } else if cabin.rows <= 0 {
      ScaleOrder(|cabin.columns|, cabin.rows, 0);
    }
  }

  /** Exactly the quota, just when the cabin has that many real seats. */
  lemma QuotaMetIff(cabin: Cabin, start: nat, c: Class)
    requires Quota(Some(cabin)) > 0
    ensures |ClassSeats(Some(cabin), start, c)| == Quota(Some(cabin))
            <==> Quota(Some(cabin)) <= cabin.rows * |Real(cabin.columns)|
  {
    ClassSize(cabin, start, c);
  }

  /** Enough: at least 30% of the columns are not aisles. */
  lemma QuotaMet(cabin: Cabin, start: nat, c: Class)
    requires Quota(Some(cabin)) > 0 && 10 * |Real(cabin.columns)| >= 3 * |cabin.columns|
    ensures |ClassSeats(Some(cabin), start, c)| == Quota(Some(cabin))
  {
    var n, m := |cabin.columns|, |Real(cabin.columns)|;
    if cabin.rows <= 0 {
      ScaleOrder(n, cabin.rows, 0);
    }
    ScaleOrder(cabin.rows, 3 * n, 10 * m);
    assert cabin.rows * (3 * n) == 3 * (cabin.rows * n) && cabin.rows * (10 * m) == 10 * (cabin.rows * m);
    QuotaMetIff(cabin, start, c);
  }

  // ---- Numbers ---------------------------------------------------------------------------------------

  /** Column labels that tell columns apart and cannot be read as more digits of the row. */
  predicate GoodColumns(columns: seq<string>) {
    (forall i :: 0 <= i < |columns| ==> IsLabel(columns[i]))
    && forall i, j :: 0 <= i < j < |columns| && columns[i] != "" ==> columns[i] != columns[j]
  }

  lemma {:induction false} RealLabels(columns: seq<string>)
    requires GoodColumns(columns)
    ensures NoDup(Real(columns)) && forall x :: x in Real(columns) ==> IsLabel(x) && x in columns
    decreases |columns|
  {
    if columns != [] {
      var init, last := columns[..|columns| - 1], columns[|columns| - 1];
      assert columns == init + [last];
      RealLabels(init);
      if last != "" {
        NoDupSnoc(Real(init), last);
        assert last !in init;
      }
    }
  }

  /** Seat i of a full cabin: its row and its column. */
  lemma {:induction false} FullCabinAt(start: nat, rows: nat, labels: seq<string>, c: Class, i: nat)
    returns (row: nat, col: nat)
    requires i < |FullCabin(start, rows, labels, c)|
    ensures start <= row < start + rows && col < |labels| && i == |FullCabin(start, row - start, labels, c)| + col
    ensures FullCabin(start, rows, labels, c)[i] == Seat(Decimal(row) + labels[col], c)
    decreases rows
  {
    var before := |FullCabin(start, rows - 1, labels, c)|;
    if i < before {
      row, col := FullCabinAt(start, rows - 1, labels, c, i);
    } else {
      row, col := start + rows - 1, i - before;
    }
  }

  lemma ClassSeatAt(cabin: Option<Cabin>, start: nat, c: Class, i: nat) returns (row: nat, col: nat)
    requires i < |ClassSeats(cabin, start, c)|
    ensures cabin.Some? && start <= row < start + cabin.value.rows && col < |Real(cabin.value.columns)|
    ensures i == |FullCabin(start, row - start, Real(cabin.value.columns), c)| + col
    ensures ClassSeats(cabin, start, c)[i] == Seat(Decimal(row) + Real(cabin.value.columns)[col], c)
  {
    row, col := FullCabinAt(start, cabin.value.rows, Real(cabin.value.columns), c, i);
  }

  /** Same row and label, same seat of the class. */
  lemma SameNumber(cabin: Option<Cabin>, start: nat, c: Class, i: nat, j: nat)
    requires i < |ClassSeats(cabin, start, c)| && j < |ClassSeats(cabin, start, c)| && cabin.Some?
             && GoodColumns(cabin.value.columns)
    requires ClassSeats(cabin, start, c)[i].number == ClassSeats(cabin, start, c)[j].number
    ensures i == j
  {
    var labels := Real(cabin.value.columns);
    RealLabels(cabin.value.columns);
    var row, col := ClassSeatAt(cabin, start, c, i);
    var row', col' := ClassSeatAt(cabin, start, c, j);
    NumeralThenLabel(row, labels[col], row', labels[col']);
  }

  predicate Sensible(cabin: Option<Cabin>) {
    cabin.None? || GoodColumns(cabin.value.columns)
  }

  /** All seat numbers of a flight are distinct, across both classes. */
  lemma NumbersDistinct(economy: Option<Cabin>, business: Option<Cabin>, i: nat, j: nat)
    requires Sensible(economy) && Sensible(business)
    requires i < j < |FlightSeats(economy, business)|
    ensures FlightSeats(economy, business)[i].number != FlightSeats(economy, business)[j].number
  {
    var start := EconomyStart(business);
    var b, e := ClassSeats(business, 1, Business), ClassSeats(economy, start, Economy);
    if FlightSeats(economy, business)[i].number == FlightSeats(economy, business)[j].number {
      if j < |b| {
        SameNumber(business, 1, Business, i, j);
      } else if |b| <= i {
        SameNumber(economy, start, Economy, i - |b|, j - |b|);
      } else {
        RealLabels(business.value.columns);
        var row, col := ClassSeatAt(business, 1, Business, i);
        var row', col' := ClassSeatAt(economy, start, Economy, j - |b|);
        RealLabels(economy.value.columns);
        NumeralThenLabel(row, Real(business.value.columns)[col], row', Real(economy.value.columns)[col']);
      }
    }
  }

  /** Why columns must not start with a digit: column 1A of row 1 and column A of row 11 print alike. */
  lemma DigitColumnsClash()
    ensures var seats := ClassSeats(Some(Cabin(40, ["A", "1A"])), 1, Economy);
            |seats| == 24 && seats[1].number == seats[20].number
  {
    var cabin := Cabin(40, ["A", "1A"]);
    assert ["A", "1A"][..1] == ["A"] && ["A"][..0] == [];
    assert Real(["A"]) == ["A"] && Real(cabin.columns) == ["A", "1A"];
    ClassSize(cabin, 1, Economy);
    var row, col := ClassSeatAt(Some(cabin), 1, Economy, 1);
    FullCabinSize(1, row - 1, ["A", "1A"], Economy);
    var row', col' := ClassSeatAt(Some(cabin), 1, Economy, 20);
    FullCabinSize(1, row' - 1, ["A", "1A"], Economy);
    assert row == 1 && col == 1 && row' == 11 && col' == 0;
    assert Decimal(11) == Decimal(1) + "1" == "11" && Decimal(1) == "1";
  }

  /** The first economy seat, if any, carries the row right after the full business section, or row 1 if business has no
      quota. */
  lemma EconomyFollowsBusiness(economy: Option<Cabin>, business: Option<Cabin>)
    requires ClassSeats(economy, EconomyStart(business), Economy) != []
    ensures economy.Some? && Real(economy.value.columns) != []
    ensures var first := FlightSeats(economy, business)[|ClassSeats(business, 1, Business)|];
            var before := if business.Some? && Quota(business) > 0 then business.value.rows else 0;
            before >= 0 && first == Seat(Decimal(before + 1) + Real(economy.value.columns)[0], Economy)
  {
    if business.Some? && business.value.rows < 0 {
      ScaleOrder(|business.value.columns|, business.value.rows, 0);
    }
    var start := EconomyStart(business);
    var row, col := ClassSeatAt(economy, start, Economy, 0);
    FullCabinSize(start, row - start, Real(economy.value.columns), Economy);
  }
}
