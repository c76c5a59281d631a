/** The two bus seat generators: the inventory job numbers seats by division, the seeder by nested loops. */
module BusSeats {
  import opened Collections
  import opened Decimals

  datatype SeatType = Seater | SemiSleeper | Sleeper | Other(name: string)
  datatype Berth = NoBerth | Lower | Upper
  datatype Place = Window | Middle | Aisle | NoPlace
  datatype Category = Women | Men | General

  datatype Seat = Seat(number: string, seatType: SeatType, berthType: Berth, position: Place, category: Category)

  /** The one-rune string of the rune 'A' + c; a surrogate prints as the replacement character. */
  function ColumnLabel(c: nat): (s: string)
    ensures IsLabel(s) && |s| == 1
  {
    var code := 'A' as int + c;
    if code < 0xD800 || 0xE000 <= code < 0x11_0000 then [code as char] else [0xFFFD as char]
  }

  /** The column's rune is a surrogate or no rune at all, or already the replacement character. */
  predicate Replaced(c: nat) {
    var code := 65 + c;
    0xD800 <= code <= 0xDFFF || code > 0x10_FFFF || code == 0xFFFD
  }

  /** Two columns print alike exactly when both print as the replacement character. */
  lemma LabelsAlikeIff(c: nat, d: nat)
    ensures ColumnLabel(c) == ColumnLabel(d) <==> c == d || (Replaced(c) && Replaced(d))
  {
    assert ColumnLabel(c) == ColumnLabel(d) <==> ColumnLabel(c)[0] == ColumnLabel(d)[0];
  }

  // ---- Inventory job: one running index ---------------------------------------------------------------

  function Columns(seatType: SeatType): nat {
    if seatType == Seater then 5 else 4
  }

  function SeatNumber(seatType: SeatType, idx: nat): string {
    match seatType
    case Seater => "S" + (Decimal(idx / 5 + 1) + ColumnLabel(idx % 5))
    case SemiSleeper => "SS" + (Decimal(idx / 4 + 1) + ColumnLabel(idx % 4))
    case Sleeper => (if idx % 2 == 0 then "L" else "U") + (Decimal(idx / 4 + 1) + if idx % 4 >= 2 then "B" else "A")
    case Other(_) => ""
  }

  function BerthType(seatType: SeatType, idx: nat): Berth {
    if seatType != Sleeper then NoBerth else if idx % 2 == 0 then Lower else Upper
  }

  function Position(seatType: SeatType, idx: nat): Place {
    match seatType
    case Seater =>
      var col := idx % 5;
      if col == 0 || col == 4 then Window else if col == 1 || col == 2 then Aisle else Middle
    case SemiSleeper => if idx % 4 == 0 || idx % 4 == 3 then Window else Aisle
    case Sleeper => Window
    case Other(_) => NoPlace
  }

  function FlatSeat(seatType: SeatType, category: Category, idx: nat): Seat {
    Seat(SeatNumber(seatType, idx), seatType, BerthType(seatType, idx), Position(seatType, idx), category)
  }

  datatype Block = Block(category: Category, total: nat)

  function Size(blocks: seq<Block>): nat {
    if blocks == [] then 0 else Size(blocks[..|blocks| - 1]) + blocks[|blocks| - 1].total
  }

  function BlockSeats(seatType: SeatType, category: Category, start: nat, n: nat): seq<Seat> {
    seq(n, i requires 0 <= i < n => FlatSeat(seatType, category, start + i))
  }

  function FlatSeats(seatType: SeatType, blocks: seq<Block>): (r: seq<Seat>)
    ensures |r| == Size(blocks)
  {
    if blocks == [] then []
    else
      var init, last := blocks[..|blocks| - 1], blocks[|blocks| - 1];
      FlatSeats(seatType, init) + BlockSeats(seatType, last.category, Size(init), last.total)
  }

  method BuildSeats(seatType: SeatType, blocks: seq<Block>) returns (seats: seq<Seat>)
    ensures seats == FlatSeats(seatType, blocks)
  {
    seats := [];
    var globalIdx := 0;
    for k := 0 to |blocks|
      invariant globalIdx == Size(blocks[..k])
      invariant seats == FlatSeats(seatType, blocks[..k])
    {
      ghost var before := seats;
      ghost var start := globalIdx;
      for i := 0 to blocks[k].total
        invariant globalIdx == start + i
        invariant seats == before + BlockSeats(seatType, blocks[k].category, start, i)
      {
        seats := seats + [FlatSeat(seatType, blocks[k].category, globalIdx)];
        globalIdx := globalIdx + 1;
      }
      assert blocks[..k + 1][..k] == blocks[..k];
    }
    assert blocks[..|blocks|] == blocks;
  }

  /** The seat number tells the index, so no two seats of a bus share one. */
  lemma SeatNumberInjective(seatType: SeatType, i: nat, j: nat)
    requires !seatType.Other?
    requires SeatNumber(seatType, i) == SeatNumber(seatType, j)
    ensures i == j
  {
    match seatType
    case Seater =>
      NumberParts("S", i / 5 + 1, ColumnLabel(i % 5), "S", j / 5 + 1, ColumnLabel(j % 5));
      LabelsDiffer(i % 5, j % 5);
    case SemiSleeper =>
      NumberParts("SS", i / 4 + 1, ColumnLabel(i % 4), "SS", j / 4 + 1, ColumnLabel(j % 4));
      LabelsDiffer(i % 4, j % 4);
    case Sleeper =>
      NumberParts(if i % 2 == 0 then "L" else "U", i / 4 + 1, if i % 4 >= 2 then "B" else "A",
                  if j % 2 == 0 then "L" else "U", j / 4 + 1, if j % 4 >= 2 then "B" else "A");
      assert "L"[0] != "U"[0] && "A"[0] != "B"[0];
    case Other(_) =>
  }

  lemma NumberParts(p: string, a: nat, x: string, q: string, b: nat, y: string)
    requires |p| == |q| && IsLabel(x) && IsLabel(y)
    requires p + (Decimal(a) + x) == q + (Decimal(b) + y)
    ensures p == q && a == b && x == y
  {
    var s, t := p + (Decimal(a) + x), q + (Decimal(b) + y);
    assert p == s[..|p|] == t[..|q|] == q;
    assert Decimal(a) + x == s[|p|..] == t[|q|..] == Decimal(b) + y;
    NumeralThenLabel(a, x, b, y);
  }

  /** From this many columns on, two column runes print alike. */
  const MAX_COLUMNS: nat := 55_232

  lemma LabelsDiffer(c: nat, d: nat)
    requires c < MAX_COLUMNS && d < MAX_COLUMNS && ColumnLabel(c) == ColumnLabel(d)
    ensures c == d
  {
    assert ColumnLabel(c)[0] == ColumnLabel(d)[0];
  }

  // ---- Seeder: rows and columns -----------------------------------------------------------------------

  /** How the seeder reads a layout: by its columns first, by its name otherwise. */
  function Behaviour(activeType: SeatType, left: int, right: int): SeatType {
    if left == 1 && right == 1 then Sleeper
    else if left == 2 && right == 3 then Seater
    else if left == 2 && right == 2 then (if activeType == SemiSleeper then SemiSleeper else Seater)
    else activeType
  }

  /** Which layouts sleep and which recline: two single columns sleep, 2 + 3 and 2 + 2 columns never do, 2 + 3 never
      recline, and all else is as named. */
  lemma BehaviourTold(named: SeatType, left: int, right: int)
    ensures var told, shape := Behaviour(named, left, right), (left, right);
            && (told == Sleeper <==> shape == (1, 1) || (named == Sleeper && shape !in {(2, 3), (2, 2)}))
            && (told == SemiSleeper <==> named == SemiSleeper && shape !in {(1, 1), (2, 3)})
            && (told.Other? ==> told == named && shape !in {(1, 1), (2, 3), (2, 2)})
            && (told == Seater ==> named == Seater || shape in {(2, 3), (2, 2)})
  {
  }

  function SeedPosition(c: int, left: int, right: int): Place
    requires 1 <= c <= left + right
  {
    var total := left + right;
    if total == 5 then [Window, Middle, Aisle, Aisle, Window][c - 1]
    else if total == 4 then [Window, Aisle, Aisle, Window][c - 1]
    else if total == 2 then Window
    else if c == 1 || c == total then Window
    else if c == left || c == left + 1 then Aisle
    else Middle
  }

  /** Windows at both ends; aisle seats are the two in the middle of four, the third and fourth of five, and otherwise
      those beside the gap. */
  lemma SeedPositionTold(c: int, left: int, right: int)
    requires 1 <= c <= left + right
    ensures var place, total := SeedPosition(c, left, right), left + right;
            var beside := if total == 4 then {2, 3} else if total == 5 then {3, 4} else {left, left + 1};
            && (place == Window <==> c == 1 || c == total)
            && (place == Aisle <==> c in beside && 1 < c < total)
            && place != NoPlace
  {
  }

  function Prefix(behaviour: SeatType): string {
    match behaviour
    case SemiSleeper => "SS"
    case Sleeper => ""
    case _ => "S"
  }

  function CategoryAt(counter: nat): Category {
    if counter < 8 then Women else if counter < 16 then Men else General
  }

  function Width(behaviour: SeatType): nat {
    if behaviour == Sleeper then 2 else 1
  }

  /** What the loops append for one row and column. */
  function CellSeats(behaviour: SeatType, left: int, right: int, row: nat, c: nat, counter: nat): (r: seq<Seat>)
    requires 1 <= c <= left + right
    ensures |r| == Width(behaviour)
  {
    var mark := Decimal(row) + ColumnLabel(c - 1);
    var pos := SeedPosition(c, left, right);
    if behaviour == Sleeper then
      [Seat("L" + mark, Sleeper, Lower, pos, General), Seat("U" + mark, Sleeper, Upper, pos, General)]
    else [Seat(Prefix(behaviour) + mark, behaviour, Lower, pos, CategoryAt(counter))]
  }

  /** The first n columns of a row, counter cells having come before it. */
  function RowSeats(behaviour: SeatType, left: int, right: int, row: nat, n: nat, counter: nat): seq<Seat>
    requires n == 0 || n <= left + right
  {
    if n == 0 then []
    else RowSeats(behaviour, left, right, row, n - 1, counter)
         + CellSeats(behaviour, left, right, row, n, counter + n - 1)
  }

  function Across(left: int, right: int): nat {
    if left + right < 0 then 0 else left + right
  }

  function CellCount(rows: nat, cols: nat): nat {
    if rows == 0 then 0 else CellCount(rows - 1, cols) + cols
  }

  /** Row r counted from 0, with its place in the running count. */
  function NthRow(behaviour: SeatType, left: int, right: int, r: nat): seq<Seat> {
    RowSeats(behaviour, left, right, r + 1, Across(left, right), CellCount(r, Across(left, right)))
  }

  function SeedSeats(behaviour: SeatType, left: int, right: int, rows: nat): seq<Seat> {
    if rows == 0 then [] else SeedSeats(behaviour, left, right, rows - 1) + NthRow(behaviour, left, right, rows - 1)
  }

  datatype Generated = Generated(seats: seq<Seat>, seater: nat, semiSleeper: nat, sleeper: nat) | Duplicates

  /** The rows-and-columns branch: nested loops with running counters and the closing duplicate check. */
  method MapSeats(activeType: SeatType, left: int, right: int, rows: nat) returns (r: Generated)
    ensures var behaviour := Behaviour(activeType, left, right); var all := SeedSeats(behaviour, left, right, rows);
            && (r.Duplicates? <==> !NoDup(Numbers(all)))
            && (r.Generated? ==> r.seats == all && Counted(behaviour, all, r.sleeper, r.semiSleeper, r.seater))
  {
    var behaviour := Behaviour(activeType, left, right);
    var seats: seq<Seat>, aSleeper: nat, aSemi: nat, aSeater: nat, seatCounter: nat := [], 0, 0, 0, 0;
    var seatNumbers: set<string> := {};
    var cols := Across(left, right);
    for row := 0 to rows
      invariant seats == SeedSeats(behaviour, left, right, row)
      invariant behaviour != Sleeper ==> seatCounter == CellCount(row, cols)
      invariant Counted(behaviour, seats, aSleeper, aSemi, aSeater) && seatNumbers == SetOf(Numbers(seats))
    {
      var more, numbers := MapRow(behaviour, left, right, row + 1, seatCounter);
      assert more == NthRow(behaviour, left, right, row);
      RowLength(behaviour, left, right, row + 1, cols, seatCounter);
      NumbersAppend(seats, more);
      seats := seats + more;
      seatNumbers := seatNumbers + numbers;
      if behaviour == Sleeper {
        aSleeper := aSleeper + |more|;
      } else {
        seatCounter := seatCounter + |more|;
        if behaviour == Seater {
          aSeater := aSeater + |more|;
        } else {
          aSemi := aSemi + |more|;
        }
      }
    }
    DistinctByCount(Numbers(seats));
    r := if |seatNumbers| != |seats| then Duplicates else Generated(seats, aSeater, aSemi, aSleeper);
  }

  lemma {:induction false} RowLength(behaviour: SeatType, left: int, right: int, row: nat, n: nat, counter: nat)
    requires n == 0 || n <= left + right
    ensures |RowSeats(behaviour, left, right, row, n, counter)| == if behaviour == Sleeper then 2 * n else n
    decreases n
  {
    if n > 0 {
      RowLength(behaviour, left, right, row, n - 1, counter);
    }
  }

  method MapRow(behaviour: SeatType, left: int, right: int, row: nat, seatCounter: nat)
    returns (seats: seq<Seat>, numbers: set<string>)
    ensures behaviour != Sleeper ==> seats == RowSeats(behaviour, left, right, row, Across(left, right), seatCounter)
    ensures behaviour == Sleeper ==>
              forall counter: nat :: seats == RowSeats(behaviour, left, right, row, Across(left, right), counter)
    ensures numbers == SetOf(Numbers(seats))
  {
    seats, numbers := [], {};
    for c := 0 to Across(left, right)
      invariant seats == RowSeats(behaviour, left, right, row, c, seatCounter) && numbers == SetOf(Numbers(seats))
    {
      var cell, more := NewSeats(behaviour, left, right, row, c + 1, seatCounter + c);
      NumbersAppend(seats, cell);
      seats := seats + cell;
      numbers := numbers + more;
    }
    if behaviour == Sleeper {
      forall counter: nat
        ensures seats == RowSeats(behaviour, left, right, row, Across(left, right), counter)
      {
        SleeperRowsUncounted(left, right, row, Across(left, right), counter, seatCounter);
      }
    }
  }

  lemma {:induction false} SleeperRowsUncounted(left: int, right: int, row: nat, n: nat, counter: nat, counter': nat)
    requires n == 0 || n <= left + right
    ensures RowSeats(Sleeper, left, right, row, n, counter) == RowSeats(Sleeper, left, right, row, n, counter')
    decreases n
  {
    if n > 0 {
      SleeperRowsUncounted(left, right, row, n - 1, counter, counter');
    }
  }

  method NewSeats(behaviour: SeatType, left: int, right: int, row: nat, c: nat, seatCounter: nat)
    returns (cell: seq<Seat>, numbers: set<string>)
    requires 1 <= c <= left + right
    ensures cell == CellSeats(behaviour, left, right, row, c, seatCounter) && numbers == SetOf(Numbers(cell))
  {
    var tail := Decimal(row) + ColumnLabel(c - 1);
    var pos := SeedPosition(c, left, right);
    if behaviour == Sleeper {
      cell := [Seat("L" + tail, Sleeper, Lower, pos, General)];
      cell := cell + [Seat("U" + tail, Sleeper, Upper, pos, General)];
      numbers := {"L" + tail, "U" + tail};
      assert Numbers(cell) == ["L" + tail, "U" + tail];
    } else {
      var category := General;
      if seatCounter < 8 {
        category := Women;
      } else if seatCounter < 16 {
        category := Men;
      }
      cell := [Seat(Prefix(behaviour) + tail, behaviour, Lower, pos, category)];
      numbers := {Prefix(behaviour) + tail};
      assert Numbers(cell) == [Prefix(behaviour) + tail];
    }
  }

  function Numbers(seats: seq<Seat>): seq<string> {
    seq(|seats|, i requires 0 <= i < |seats| => seats[i].number)
  }

  predicate Counted(behaviour: SeatType, seats: seq<Seat>, aSleeper: nat, aSemi: nat, aSeater: nat) {
    && aSleeper == (if behaviour == Sleeper then |seats| else 0)
    && aSeater == (if behaviour == Seater then |seats| else 0)
    && aSemi == (if behaviour != Sleeper && behaviour != Seater then |seats| else 0)
  }

  lemma NumbersAppend(seats: seq<Seat>, more: seq<Seat>)
    ensures SetOf(Numbers(seats + more)) == SetOf(Numbers(seats)) + SetOf(Numbers(more))
  {
    assert Numbers(seats + more) == Numbers(seats) + Numbers(more);
  }

  // ---- Agreement -------------------------------------------------------------------------------------

  predicate StandsAt(seats: seq<Seat>, i: nat, s: Seat) {
    i < |seats| && seats[i] == s
  }

  /** The seat of row r, column c, berth k, all counted from 0. */
  function SeatOf(behaviour: SeatType, left: int, right: int, r: nat, c: nat, k: nat, counter: nat): Seat
    requires c < Across(left, right) && k < Width(behaviour)
  {
    CellSeats(behaviour, left, right, r + 1, c + 1, counter + c)[k]
  }

  /** Where the loops put column c, berth k of a row. */
  lemma {:induction false} RowSeatAt(behaviour: SeatType, left: int, right: int, r: nat, n: nat, counter: nat, c: nat,
                                     k: nat)
    requires c < n <= Across(left, right) && k < Width(behaviour)
    ensures StandsAt(RowSeats(behaviour, left, right, r + 1, n, counter),
                     |RowSeats(behaviour, left, right, r + 1, c, counter)| + k,
                     SeatOf(behaviour, left, right, r, c, k, counter))
    decreases n
  {
    if c < n - 1 {
      RowSeatAt(behaviour, left, right, r, n - 1, counter, c, k);
    }
  }

  lemma {:induction false} SeedRowAt(behaviour: SeatType, left: int, right: int, rows: nat, r: nat, x: nat, s: Seat)
    requires r < rows && StandsAt(NthRow(behaviour, left, right, r), x, s)
    ensures StandsAt(SeedSeats(behaviour, left, right, rows), |SeedSeats(behaviour, left, right, r)| + x, s)
    decreases rows
  {
    if r < rows - 1 {
      SeedRowAt(behaviour, left, right, rows - 1, r, x, s);
    }
  }

  /** The index of column c, berth k within row r. */
  function IndexInRow(behaviour: SeatType, left: int, right: int, r: nat, c: nat, k: nat): nat
    requires c < Across(left, right)
  {
    |RowSeats(behaviour, left, right, r + 1, c, CellCount(r, Across(left, right)))| + k
  }

  /** The index of row r, column c, berth k. */
  function IndexOf(behaviour: SeatType, left: int, right: int, r: nat, c: nat, k: nat): nat
    requires c < Across(left, right)
  {
    |SeedSeats(behaviour, left, right, r)| + IndexInRow(behaviour, left, right, r, c, k)
  }

  lemma SeedSeatAt(behaviour: SeatType, left: int, right: int, rows: nat, r: nat, c: nat, k: nat)
    requires r < rows && c < Across(left, right) && k < Width(behaviour)
    ensures StandsAt(SeedSeats(behaviour, left, right, rows), IndexOf(behaviour, left, right, r, c, k),
                     SeatOf(behaviour, left, right, r, c, k, CellCount(r, Across(left, right))))
  {
    var counter := CellCount(r, Across(left, right));
    RowSeatAt(behaviour, left, right, r, Across(left, right), counter, c, k);
    SeedRowAt(behaviour, left, right, rows, r, IndexInRow(behaviour, left, right, r, c, k),
              SeatOf(behaviour, left, right, r, c, k, counter));
  }

  lemma {:induction false} LocateInRow(behaviour: SeatType, left: int, right: int, row: nat, n: nat, counter: nat,
                                       x: nat)
    returns (c: nat, k: nat)
    requires n <= Across(left, right) && x < |RowSeats(behaviour, left, right, row, n, counter)|
    ensures c < n && k < Width(behaviour) && x == |RowSeats(behaviour, left, right, row, c, counter)| + k
    decreases n
  {
    var before := |RowSeats(behaviour, left, right, row, n - 1, counter)|;
    if x < before {
      c, k := LocateInRow(behaviour, left, right, row, n - 1, counter, x);
    } else {
      c, k := n - 1, x - before;
    }
  }

  /** Every index has a row, a column and a berth. */
  lemma {:induction false} Locate(behaviour: SeatType, left: int, right: int, rows: nat, i: nat)
    returns (r: nat, c: nat, k: nat)
    requires i < |SeedSeats(behaviour, left, right, rows)|
    ensures r < rows && c < Across(left, right) && k < Width(behaviour) && i == IndexOf(behaviour, left, right, r, c, k)
    decreases rows
  {
    var before := |SeedSeats(behaviour, left, right, rows - 1)|;
    if i < before {
      r, c, k := Locate(behaviour, left, right, rows - 1, i);
    } else {
      r := rows - 1;
      c, k := LocateInRow(behaviour, left, right, rows, Across(left, right), CellCount(r, Across(left, right)),
                          i - before);
    }
  }

  lemma {:induction false} CellTotal(rows: nat, cols: nat)
    ensures CellCount(rows, cols) == rows * cols
    decreases rows
  {
    if rows > 0 {
      CellTotal(rows - 1, cols);
      assert rows * cols == (rows - 1) * cols + cols;
    }
  }

  lemma {:induction false} SeatTotal(behaviour: SeatType, left: int, right: int, rows: nat)
    ensures var cells := CellCount(rows, Across(left, right));
            |SeedSeats(behaviour, left, right, rows)| == if behaviour == Sleeper then 2 * cells else cells
    decreases rows
  {
    if rows > 0 {
      SeatTotal(behaviour, left, right, rows - 1);
      RowLength(behaviour, left, right, rows, Across(left, right), CellCount(rows - 1, Across(left, right)));
    }
  }

  /** With a fixed number of columns the counts are plain multiples. */
  lemma SeedLength(behaviour: SeatType, left: int, right: int, rows: nat)
    ensures CellCount(rows, Across(left, right)) == rows * Across(left, right)
    ensures var cells := CellCount(rows, Across(left, right));
            |SeedSeats(behaviour, left, right, rows)| == if behaviour == Sleeper then 2 * cells else cells
  {
    CellTotal(rows, Across(left, right));
    SeatTotal(behaviour, left, right, rows);
  }

  /** A layout has a seat for every row and column, twice that where one sleeps, and none without columns. */
  lemma SeatsPerLayout(behaviour: SeatType, left: int, right: int, rows: nat)
    ensures var cells := if left + right > 0 then rows * (left + right) else 0;
            |SeedSeats(behaviour, left, right, rows)| == if behaviour == Sleeper then 2 * cells else cells
  {
    SeedLength(behaviour, left, right, rows);
  }

  lemma IndexIs(behaviour: SeatType, left: int, right: int, r: nat, c: nat, k: nat)
    requires c < Across(left, right)
    ensures var cells := r * Across(left, right) + c;
            IndexOf(behaviour, left, right, r, c, k) == if behaviour == Sleeper then 2 * cells + k else cells + k
  {
    SeedLength(behaviour, left, right, r);
    RowLength(behaviour, left, right, r + 1, c, CellCount(r, Across(left, right)));
  }

  /** What both generators must agree on for one seat. */
  function Label(s: Seat): (string, SeatType, Category) {
    (s.number, s.seatType, s.category)
  }

  predicate SameLabels(a: seq<Seat>, b: seq<Seat>) {
    |a| == |b| && forall i :: 0 <= i < |a| ==> Label(a[i]) == Label(b[i])
  }

  function Beyond(total: nat): nat {
    if total < 16 then 0 else total - 16
  }

  function ThreeBlocks(total: nat): seq<Block> {
    [Block(Women, 8), Block(Men, 8), Block(General, Beyond(total))]
  }

  lemma OneMoreBlock(seatType: SeatType, blocks: seq<Block>, b: Block)
    ensures Size(blocks + [b]) == Size(blocks) + b.total
    ensures FlatSeats(seatType, blocks + [b])
            == FlatSeats(seatType, blocks) + BlockSeats(seatType, b.category, Size(blocks), b.total)
  {
    assert (blocks + [b])[..|blocks|] == blocks;
  }

  lemma FirstBlock(seatType: SeatType, b: Block)
    ensures Size([b]) == b.total && FlatSeats(seatType, [b]) == BlockSeats(seatType, b.category, 0, b.total)
  {
    OneMoreBlock(seatType, [], b);
    assert [] + [b] == [b];
  }

  lemma TwoBlocksJoined(seatType: SeatType, a: Block, b: Block)
    ensures Size([a, b]) == a.total + b.total
    ensures FlatSeats(seatType, [a, b])
         == BlockSeats(seatType, a.category, 0, a.total) + BlockSeats(seatType, b.category, a.total, b.total)
  {
    FirstBlock(seatType, a);
    OneMoreBlock(seatType, [a], b);
    assert [a] + [b] == [a, b];
  }

  lemma ThreeBlocksJoined(seatType: SeatType, total: nat)
    ensures FlatSeats(seatType, ThreeBlocks(total))
         == BlockSeats(seatType, Women, 0, 8) + BlockSeats(seatType, Men, 8, 8)
            + BlockSeats(seatType, General, 16, Beyond(total))
  {
    var w, m, g := Block(Women, 8), Block(Men, 8), Block(General, Beyond(total));
    TwoBlocksJoined(seatType, w, m);
    OneMoreBlock(seatType, [w, m], g);
    assert [w, m] + [g] == ThreeBlocks(total);
  }

  /** Indexing into three sequences one after another. */
  lemma JoinAt<T>(a: seq<T>, b: seq<T>, c: seq<T>, i: nat)
    requires i < |a| + |b| + |c|
    ensures i < |a + b + c|
    ensures (a + b + c)[i] == if i < |a| then a[i] else if i < |a| + |b| then b[i - |a|] else c[i - |a| - |b|]
  {
  }

  lemma BlockSeatAt(seatType: SeatType, category: Category, start: nat, n: nat, j: nat, i: nat)
    requires j < n && i == start + j
    ensures BlockSeats(seatType, category, start, n)[j] == FlatSeat(seatType, category, i)
  {
  }

  lemma ThreeBlockSeatAt(seatType: SeatType, total: nat, i: nat)
    requires i < 16 + Beyond(total)
    ensures i < |FlatSeats(seatType, ThreeBlocks(total))|
    ensures FlatSeats(seatType, ThreeBlocks(total))[i] == FlatSeat(seatType, CategoryAt(i), i)
  {
    ThreeBlocksJoined(seatType, total);
    JoinAt(BlockSeats(seatType, Women, 0, 8), BlockSeats(seatType, Men, 8, 8),
           BlockSeats(seatType, General, 16, Beyond(total)), i);
    if i < 8 {
      BlockSeatAt(seatType, Women, 0, 8, i, i);
    } else if i < 16 {
      BlockSeatAt(seatType, Men, 8, 8, i - 8, i);
    } else {
      BlockSeatAt(seatType, General, 16, Beyond(total), i - 16, i);
    }
  }

  lemma ThreeBlockSeats(seatType: SeatType, total: nat)
    ensures |FlatSeats(seatType, ThreeBlocks(total))| == 16 + Beyond(total)
    ensures forall i :: 0 <= i < |FlatSeats(seatType, ThreeBlocks(total))| ==>
              FlatSeats(seatType, ThreeBlocks(total))[i] == FlatSeat(seatType, CategoryAt(i), i)
  {
    ThreeBlocksJoined(seatType, total);
    forall i | 0 <= i < |FlatSeats(seatType, ThreeBlocks(total))|
      ensures FlatSeats(seatType, ThreeBlocks(total))[i] == FlatSeat(seatType, CategoryAt(i), i)
    {
      ThreeBlockSeatAt(seatType, total, i);
    }
  }

  lemma SleeperSeedSeat(left: int, right: int, rows: nat, i: nat)
    requires left == right == 1 && i < |SeedSeats(Sleeper, left, right, rows)|
    ensures SeedSeats(Sleeper, left, right, rows)[i] == FlatSeat(Sleeper, General, i)
  {
    var r, c, k := Locate(Sleeper, left, right, rows, i);
    SleeperSeedCell(left, right, rows, r, c, k, i);
  }

  lemma SleeperSeedCell(left: int, right: int, rows: nat, r: nat, c: nat, k: nat, i: nat)
    requires left == right == 1 && r < rows && c < 2 && k < 2 && i == IndexOf(Sleeper, left, right, r, c, k)
    ensures i < |SeedSeats(Sleeper, left, right, rows)|
    ensures SeedSeats(Sleeper, left, right, rows)[i] == FlatSeat(Sleeper, General, i)
  {
    assert i == 4 * r + 2 * c + k by {
      IndexIs(Sleeper, left, right, r, c, k);
    }
    var counter := CellCount(r, Across(left, right)) + c;
    assert i < |SeedSeats(Sleeper, left, right, rows)|
           && SeedSeats(Sleeper, left, right, rows)[i] == CellSeats(Sleeper, left, right, r + 1, c + 1, counter)[k] by {
      SeedSeatAt(Sleeper, left, right, rows, r, c, k);
    }
    assert CellSeats(Sleeper, left, right, r + 1, c + 1, counter)[k] == FlatSeat(Sleeper, General, i) by {
      SleeperCell(left, right, r, c, k, counter);
    }
  }

  lemma SleeperCell(left: int, right: int, r: nat, c: nat, k: nat, counter: nat)
    requires left == right == 1 && c < 2 && k < 2
    ensures CellSeats(Sleeper, left, right, r + 1, c + 1, counter)[k] == FlatSeat(Sleeper, General, 4 * r + 2 * c + k)
  {
    var i := 4 * r + 2 * c + k;
    var side, tail := if k == 0 then "L" else "U", Decimal(r + 1) + ColumnLabel(c);
    assert ColumnLabel(c) == if c == 1 then "B" else "A";
    assert i / 4 + 1 == r + 1 && (i % 4 >= 2 <==> c == 1) && (i % 2 == 0 <==> k == 0);
    assert SeatNumber(Sleeper, i) == side + tail;
    assert CellSeats(Sleeper, left, right, r + 1, c + 1, counter)[k].number == side + tail;
  }

  /** Sleeper: the same seats, berths and positions included, for every number of rows. */
  lemma SleepersAgree(left: int, right: int, rows: nat)
    requires left == right == 1
    ensures FlatSeats(Sleeper, [Block(General, 4 * rows)])
            == SeedSeats(Behaviour(Sleeper, left, right), left, right, rows)
  {
    var flat, seeded := BlockSeats(Sleeper, General, 0, 4 * rows), SeedSeats(Sleeper, left, right, rows);
    assert FlatSeats(Sleeper, [Block(General, 4 * rows)]) == flat by {
      FirstBlock(Sleeper, Block(General, 4 * rows));
    }
    assert |seeded| == 4 * rows by {
      SeedLength(Sleeper, left, right, rows);
    }
    forall i | 0 <= i < |seeded|
      ensures seeded[i] == flat[i]
    {
      SleeperSeedSeat(left, right, rows, i);
    }
  }

  function RightColumns(seatType: SeatType): nat {
    if seatType == Seater then 3 else 2
  }

  /** What the seeder writes in one seat of a seater or semi-sleeper layout. */
  predicate SeededAs(s: Seat, seatType: SeatType, i: nat) {
    s.number == SeatNumber(seatType, i) && s.seatType == seatType && s.berthType == Lower && s.category == CategoryAt(i)
    && s.position == SeedPosition(i % Columns(seatType) + 1, 2, RightColumns(seatType))
  }

  lemma SeaterCell(seatType: SeatType, r: nat, c: nat)
    requires (seatType == Seater || seatType == SemiSleeper) && c < Columns(seatType)
    ensures var i := r * Columns(seatType) + c;
            SeededAs(CellSeats(seatType, 2, RightColumns(seatType), r + 1, c + 1, i)[0], seatType, i)
  {
    DivModOf(r, c, Columns(seatType));
  }

  lemma SeaterIndex(seatType: SeatType, r: nat, c: nat)
    requires (seatType == Seater || seatType == SemiSleeper) && c < Columns(seatType)
    ensures IndexOf(seatType, 2, RightColumns(seatType), r, c, 0) == r * Columns(seatType) + c
    ensures CellCount(r, Columns(seatType)) == r * Columns(seatType)
  {
    IndexIs(seatType, 2, RightColumns(seatType), r, c, 0);
    CellTotal(r, Columns(seatType));
  }

  lemma SeaterSeatAt(seatType: SeatType, rows: nat, r: nat, c: nat, i: nat)
    requires (seatType == Seater || seatType == SemiSleeper) && r < rows && c < Columns(seatType)
    requires i == IndexOf(seatType, 2, RightColumns(seatType), r, c, 0)
    ensures i == r * Columns(seatType) + c
    ensures var right := RightColumns(seatType); var seats := SeedSeats(seatType, 2, right, rows);
            i < |seats| && seats[i] == CellSeats(seatType, 2, right, r + 1, c + 1, i)[0]
  {
    SeaterIndex(seatType, r, c);
    SeedSeatAt(seatType, 2, RightColumns(seatType), rows, r, c, 0);
  }

  lemma SeededCell(seatType: SeatType, rows: nat, r: nat, c: nat, i: nat)
    requires (seatType == Seater || seatType == SemiSleeper) && r < rows && c < Columns(seatType)
    requires i == IndexOf(seatType, 2, RightColumns(seatType), r, c, 0)
    ensures i < |SeedSeats(seatType, 2, RightColumns(seatType), rows)|
    ensures SeededAs(SeedSeats(seatType, 2, RightColumns(seatType), rows)[i], seatType, i)
  {
    SeaterSeatAt(seatType, rows, r, c, i);
    SeaterCell(seatType, r, c);
  }

  lemma SeedSeatOf(seatType: SeatType, rows: nat, i: nat)
    requires (seatType == Seater || seatType == SemiSleeper)
             && i < |SeedSeats(seatType, 2, RightColumns(seatType), rows)|
    ensures SeededAs(SeedSeats(seatType, 2, RightColumns(seatType), rows)[i], seatType, i)
  {
    var r, c, k := Locate(seatType, 2, RightColumns(seatType), rows, i);
    SeededCell(seatType, rows, r, c, i);
  }

  lemma SeedTotal(seatType: SeatType, rows: nat)
    requires seatType == Seater || seatType == SemiSleeper
    ensures |SeedSeats(seatType, 2, RightColumns(seatType), rows)| == rows * Columns(seatType)
  {
    SeedLength(seatType, 2, RightColumns(seatType), rows);
  }

  lemma SeatLabels(seatType: SeatType, rows: nat, i: nat)
    requires (seatType == Seater || seatType == SemiSleeper) && i < rows * Columns(seatType)
    requires i < |FlatSeats(seatType, ThreeBlocks(rows * Columns(seatType)))|
    requires i < |SeedSeats(seatType, 2, RightColumns(seatType), rows)|
    ensures Label(FlatSeats(seatType, ThreeBlocks(rows * Columns(seatType)))[i])
         == Label(SeedSeats(seatType, 2, RightColumns(seatType), rows)[i])
  {
    ThreeBlockSeats(seatType, rows * Columns(seatType));
    SeedSeatOf(seatType, rows, i);
  }

  /** Seater and semi-sleeper with category blocks of 8, 8 and the rest: the generators agree on number, type
      and category of every seat exactly when there are at least four rows. */
  lemma SeatersAgreeIff(seatType: SeatType, rows: nat)
    requires seatType == Seater || seatType == SemiSleeper
    ensures var right := RightColumns(seatType);
            SameLabels(FlatSeats(seatType, ThreeBlocks(rows * Columns(seatType))),
                       SeedSeats(Behaviour(seatType, 2, right), 2, right, rows))
            <==> rows >= 4
  {
    var right, total := RightColumns(seatType), rows * Columns(seatType);
    var flat, seeded := FlatSeats(seatType, ThreeBlocks(total)), SeedSeats(seatType, 2, right, rows);
    assert Behaviour(seatType, 2, right) == seatType;
    SeedTotal(seatType, rows);
    assert |flat| == 16 + Beyond(total) by {
      ThreeBlockSeats(seatType, total);
    }
    forall i | 0 <= i < |seeded|
      ensures Label(flat[i]) == Label(seeded[i])
    {
      SeatLabels(seatType, rows, i);
    }
  }

  /** Positions: the semi-sleeper layouts agree everywhere, the seater ones except in columns B and D. */
  lemma PositionsAgreeIff(seatType: SeatType, rows: nat, i: nat)
    requires (seatType == Seater || seatType == SemiSleeper)
             && i < |SeedSeats(seatType, 2, RightColumns(seatType), rows)|
    ensures SeedSeats(seatType, 2, RightColumns(seatType), rows)[i].position == Position(seatType, i)
            <==> !(seatType == Seater && i % 5 in {1, 3})
  {
    SeedSeatOf(seatType, rows, i);
  }

  /** Berths: the seeder calls every seat a lower one, the inventory job gives it no berth. */
  lemma SeatersHaveNoBerth(seatType: SeatType, rows: nat, i: nat)
    requires (seatType == Seater || seatType == SemiSleeper)
             && i < |SeedSeats(seatType, 2, RightColumns(seatType), rows)|
    ensures SeedSeats(seatType, 2, RightColumns(seatType), rows)[i].berthType == Lower
    ensures BerthType(seatType, i) == NoBerth
  {
    SeedSeatOf(seatType, rows, i);
  }

  // ---- The duplicate check ---------------------------------------------------------------------------

  lemma CellNumbersDiffer(behaviour: SeatType, left: int, right: int, r: nat, c: nat, k: nat, n: nat,
                          r': nat, c': nat, k': nat, n': nat)
    requires c < Across(left, right) <= MAX_COLUMNS && c' < Across(left, right) && k < Width(behaviour)
             && k' < Width(behaviour)
    requires CellSeats(behaviour, left, right, r + 1, c + 1, n)[k].number
             == CellSeats(behaviour, left, right, r' + 1, c' + 1, n')[k'].number
    ensures r == r' && c == c' && k == k'
  {
    if behaviour == Sleeper {
      NumberParts(if k == 0 then "L" else "U", r + 1, ColumnLabel(c),
                  if k' == 0 then "L" else "U", r' + 1, ColumnLabel(c'));
      assert "L"[0] != "U"[0];
    } else {
      NumberParts(Prefix(behaviour), r + 1, ColumnLabel(c), Prefix(behaviour), r' + 1, ColumnLabel(c'));
    }
    LabelsDiffer(c, c');
  }

  /** The cell a number comes from. */
  lemma NumberAt(behaviour: SeatType, left: int, right: int, rows: nat, i: nat) returns (r: nat, c: nat, k: nat)
    requires i < |SeedSeats(behaviour, left, right, rows)|
    ensures r < rows && c < Across(left, right) && k < Width(behaviour) && i == IndexOf(behaviour, left, right, r, c, k)
    ensures Numbers(SeedSeats(behaviour, left, right, rows))[i]
         == CellSeats(behaviour, left, right, r + 1, c + 1, CellCount(r, Across(left, right)) + c)[k].number
  {
    r, c, k := Locate(behaviour, left, right, rows, i);
    SeedSeatAt(behaviour, left, right, rows, r, c, k);
  }

  lemma SeedNumbersDistinct(behaviour: SeatType, left: int, right: int, rows: nat)
    requires Across(left, right) <= MAX_COLUMNS
    ensures NoDup(Numbers(SeedSeats(behaviour, left, right, rows)))
  {
    var seats, cols := SeedSeats(behaviour, left, right, rows), Across(left, right);
    forall i: nat, j: nat | i < j < |seats|
      ensures Numbers(seats)[i] != Numbers(seats)[j]
    {
      var r, c, k := NumberAt(behaviour, left, right, rows, i);
      var r', c', k' := NumberAt(behaviour, left, right, rows, j);
      if Numbers(seats)[i] == Numbers(seats)[j] {
        CellNumbersDiffer(behaviour, left, right, r, c, k, CellCount(r, cols) + c,
                          r', c', k', CellCount(r', cols) + c');
      }
    }
  }

  /** The number of the first berth in column c of the first row, and where it stands. */
  lemma FirstRowNumber(behaviour: SeatType, left: int, right: int, rows: nat, c: nat) returns (i: nat)
    requires rows > 0 && c < Across(left, right)
    ensures i == (if behaviour == Sleeper then 2 * c else c)
    ensures var numbers := Numbers(SeedSeats(behaviour, left, right, rows));
            i < |numbers|
            && numbers[i] == (if behaviour == Sleeper then "L" else Prefix(behaviour)) + (Decimal(1) + ColumnLabel(c))
  {
    i := IndexOf(behaviour, left, right, 0, c, 0);
    SeedSeatAt(behaviour, left, right, rows, 0, c, 0);
    RowLength(behaviour, left, right, 1, c, 0);
  }

  /** The seeder's duplicate check fires exactly on layouts so wide that column runes run into surrogates. */
  lemma DuplicatesIff(behaviour: SeatType, left: int, right: int, rows: nat)
    requires rows > 0
    ensures NoDup(Numbers(SeedSeats(behaviour, left, right, rows))) <==> Across(left, right) <= MAX_COLUMNS
  {
    if Across(left, right) <= MAX_COLUMNS {
      SeedNumbersDistinct(behaviour, left, right, rows);
    } else {
      var i := FirstRowNumber(behaviour, left, right, rows, MAX_COLUMNS - 1);
      var j := FirstRowNumber(behaviour, left, right, rows, MAX_COLUMNS);
      assert ColumnLabel(MAX_COLUMNS - 1) == ColumnLabel(MAX_COLUMNS);
    }
  }
}
