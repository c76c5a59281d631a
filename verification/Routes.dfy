/** Boarding and dropping points: how the seeder accepts and renumbers them, how a route is read back, and how
    the daily job clones them. */
module Routes {
  import opened Collections

  // ---- Sorting ---------------------------------------------------------------------------------------

  predicate Sorted<T>(s: seq<T>, key: T -> int) {
    forall i, j :: 0 <= i < j < |s| ==> key(s[i]) <= key(s[j])
  }

  predicate Strict<T>(s: seq<T>, key: T -> int) {
    forall i, j :: 0 <= i < j < |s| ==> key(s[i]) < key(s[j])
  }

  /** sort.Slice: some sorted rearrangement, which one is not said for equal keys. */
  ghost predicate SortsBy<T(!new)>(sort: seq<T> -> seq<T>, key: T -> int) {
    forall s: seq<T> :: multiset(sort(s)) == multiset(s) && Sorted(sort(s), key)
  }

  lemma SameElements<T>(a: seq<T>, b: seq<T>)
    requires multiset(a) == multiset(b)
    ensures |a| == |b| && forall x :: x in a <==> x in b
  {
    assert |multiset(a)| == |a| && |multiset(b)| == |b|;
    forall x
      ensures x in a <==> x in b
    {
      assert x in a <==> x in multiset(a);
      assert x in b <==> x in multiset(b);
    }
  }

  lemma TailElements<T>(a: seq<T>)
    requires a != []
    ensures multiset(a[1..]) == multiset(a) - multiset{a[0]}
  {
    assert a == [a[0]] + a[1..];
  }

  lemma SameHead<T(!new)>(a: seq<T>, b: seq<T>, key: T -> int)
    requires a != [] && multiset(a) == multiset(b) && Strict(a, key) && Sorted(b, key)
    ensures b != [] && a[0] == b[0]
  {
    SameElements(a, b);
    assert b[0] in a && a[0] in b;
    var j :| 0 <= j < |a| && a[j] == b[0];
    var k :| 0 <= k < |b| && b[k] == a[0];
    assert key(b[0]) <= key(a[0]);
  }

  lemma TailSorted<T(!new)>(a: seq<T>, b: seq<T>, key: T -> int)
    requires a != [] && b != [] && Strict(a, key) && Sorted(b, key)
    ensures Strict(a[1..], key) && Sorted(b[1..], key)
  {
    forall i, j | 0 <= i < j < |a[1..]|
      ensures key(a[1..][i]) < key(a[1..][j])
    {
      assert a[1..][i] == a[i + 1] && a[1..][j] == a[j + 1];
    }
    forall i, j | 0 <= i < j < |b[1..]|
      ensures key(b[1..][i]) <= key(b[1..][j])
    {
      assert b[1..][i] == b[i + 1] && b[1..][j] == b[j + 1];
    }
  }

  /** With strictly increasing keys there is only one sorted rearrangement. */
  lemma {:induction false} SortUnique<T(!new)>(a: seq<T>, b: seq<T>, key: T -> int)
    requires multiset(a) == multiset(b) && Strict(a, key) && Sorted(b, key)
    ensures a == b
    decreases |a|
  {
    if a == [] {
      SameElements(a, b);
    } else {
      SameHead(a, b, key);
      assert multiset(a[1..]) == multiset(b[1..]) by {
        TailElements(a);
        TailElements(b);
      }
      TailSorted(a, b, key);
      SortUnique(a[1..], b[1..], key);
      assert a == [a[0]] + a[1..] && b == [b[0]] + b[1..];
    }
  }

  // ---- The seeder ------------------------------------------------------------------------------------

  datatype Point = Point(stopName: string, city: string, time: int, sequence: int, landmark: string)

  /** One bus instance's raw points. */
  datatype Group = Group(boarding: seq<Point>, dropping: seq<Point>)

  datatype Bus = Bus(origin: nat, destination: nat)

  /** A record of the raw files: which bus and day it is for, and the point. */
  datatype Record = Record(busNumber: string, travelDate: string, point: Point)

  function Own(records: seq<Record>, key: (string, string)): seq<Point> {
    if records == [] then []
    else
      var last := records[|records| - 1];
      Own(records[..|records| - 1], key) + if (last.busNumber, last.travelDate) == key then [last.point] else []
  }

  /** A file read in two parts gives the points of both, and one record its point if it is for that bus and day. */
  lemma {:induction false} OwnAdds(a: seq<Record>, b: seq<Record>, key: (string, string))
    ensures Own(a + b, key) == Own(a, key) + Own(b, key)
    ensures |a| == 1 ==> Own(a, key) == if a[0].busNumber == key.0 && a[0].travelDate == key.1 then [a[0].point] else []
    decreases |b|
  {
    if b == [] {
      assert a + b == a;
    } else {
      assert (a + b)[..|a + b| - 1] == a + b[..|b| - 1];
      OwnAdds(a, b[..|b| - 1], key);
    }
  }

  function GroupAt(groups: map<(string, string), Group>, key: (string, string)): Group {
    if key in groups then groups[key] else Group([], [])
  }

  /** Every key's group holds its own records of both files, in file order. */
  method GroupPoints(bRaw: seq<Record>, dRaw: seq<Record>) returns (groups: map<(string, string), Group>)
    ensures forall key :: GroupAt(groups, key) == Group(Own(bRaw, key), Own(dRaw, key))
  {
    groups := map[];
    for i := 0 to |bRaw|
      invariant forall key :: GroupAt(groups, key) == Group(Own(bRaw[..i], key), [])
    {
      assert bRaw[..i + 1][..i] == bRaw[..i];
      var key := (bRaw[i].busNumber, bRaw[i].travelDate);
      var g := GroupAt(groups, key);
      groups := groups[key := g.(boarding := g.boarding + [bRaw[i].point])];
    }
    assert bRaw[..|bRaw|] == bRaw;
    for i := 0 to |dRaw|
      invariant forall key :: GroupAt(groups, key) == Group(Own(bRaw, key), Own(dRaw[..i], key))
    {
      assert dRaw[..i + 1][..i] == dRaw[..i];
      var key := (dRaw[i].busNumber, dRaw[i].travelDate);
      var g := GroupAt(groups, key);
      groups := groups[key := g.(dropping := g.dropping + [dRaw[i].point])];
    }
    assert dRaw[..|dRaw|] == dRaw;
  }

  const SEQ: Point -> int := (p: Point) => p.sequence

  function StopKey(p: Point): string {
    p.stopName + "|" + p.city
  }

  function StopKeys(ps: seq<Point>): seq<string> {
    seq(|ps|, i requires 0 <= i < |ps| => StopKey(ps[i]))
  }

  type Lookup = (string, string) -> Option<nat>

  function Find(find: Lookup, p: Point): Option<nat> {
    find(p.stopName, p.city)
  }

  /** What the checks demand of the sorted points. */
  predicate Accepted(boarding: seq<Point>, dropping: seq<Point>, bus: Bus, find: Lookup) {
    && boarding != [] && dropping != []
    && boarding[|boarding| - 1].sequence < dropping[0].sequence
    && Strict(boarding, SEQ) && Strict(dropping, SEQ)
    && NoDup(StopKeys(boarding) + StopKeys(dropping))
    && Find(find, boarding[0]) == Some(bus.origin)
    && Find(find, dropping[|dropping| - 1]) == Some(bus.destination)
  }

  /** So exactly the groups are accepted that, boarding points first, rise strictly from the bus's origin to its
      destination without naming a stop twice. */
  lemma AcceptedIff(boarding: seq<Point>, dropping: seq<Point>, bus: Bus, find: Lookup)
    ensures var route := boarding + dropping;
            Accepted(boarding, dropping, bus, find) <==>
              && boarding != [] && dropping != [] && Strict(route, SEQ) && NoDup(StopKeys(route))
              && Find(find, route[0]) == Some(bus.origin) && Find(find, route[|route| - 1]) == Some(bus.destination)
  {
    assert StopKeys(boarding + dropping) == StopKeys(boarding) + StopKeys(dropping);
    if boarding != [] && dropping != [] {
      StrictJoin(boarding, dropping);
    }
  }

  lemma StrictJoin(a: seq<Point>, b: seq<Point>)
    requires a != [] && b != []
    ensures Strict(a + b, SEQ) <==> Strict(a, SEQ) && Strict(b, SEQ) && a[|a| - 1].sequence < b[0].sequence
  {
    var s := a + b;
    assert s[|a| - 1] == a[|a| - 1] && s[|a|] == b[0];
    if Strict(s, SEQ) {
      assert forall i :: 0 <= i < |a| ==> a[i] == s[i];
      assert forall i :: 0 <= i < |b| ==> b[i] == s[|a| + i];
    }
    if Strict(a, SEQ) && Strict(b, SEQ) && a[|a| - 1].sequence < b[0].sequence {
      forall i, j | 0 <= i < j < |s|
        ensures SEQ(s[i]) < SEQ(s[j])
      {
        assert i < |a| ==> SEQ(a[i]) <= SEQ(a[|a| - 1]);
        assert j >= |a| ==> SEQ(b[0]) <= SEQ(b[j - |a|]);
      }
    }
  }

  /** The increasing-order and duplicate-stop loop over one list. */
  method CheckList(points: seq<Point>, seen: seq<string>) returns (ok: bool)
    requires NoDup(seen)
    ensures ok <==> Strict(points, SEQ) && NoDup(seen + StopKeys(points))
  {
    var stopMap := SetOf(seen);
    for i := 0 to |points|
      invariant Strict(points[..i], SEQ) && NoDup(seen + StopKeys(points[..i]))
      invariant stopMap == SetOf(seen + StopKeys(points[..i]))
    {
      var p := points[i];
      ghost var before, after := points[..i], points[..i + 1];
      assert after == before + [p];
      assert seen + StopKeys(after) == (seen + StopKeys(before)) + [StopKey(p)];
      if i > 0 && p.sequence <= points[i - 1].sequence {
        assert !Strict(points, SEQ);
        return false;
      }
      NoDupSnoc(seen + StopKeys(before), StopKey(p));
      if StopKey(p) in stopMap {
        PrefixNoDup(seen, points, i + 1);
        return false;
      }
      StrictSnoc(before, p);
      stopMap := stopMap + {StopKey(p)};
    }
    assert points[..|points|] == points;
    return true;
  }

  lemma StrictSnoc(ps: seq<Point>, p: Point)
    requires Strict(ps, SEQ) && (ps != [] ==> ps[|ps| - 1].sequence < p.sequence)
    ensures Strict(ps + [p], SEQ)
  {
  }

  lemma PrefixNoDup(seen: seq<string>, ps: seq<Point>, n: nat)
    requires n <= |ps|
    ensures NoDup(seen + StopKeys(ps)) ==> NoDup(seen + StopKeys(ps[..n]))
  {
    var whole, part := seen + StopKeys(ps), seen + StopKeys(ps[..n]);
    assert forall i :: 0 <= i < |part| ==> part[i] == whole[i];
  }

  method Validate(boarding: seq<Point>, dropping: seq<Point>, bus: Bus, find: Lookup) returns (ok: bool)
    ensures ok <==> Accepted(boarding, dropping, bus, find)
  {
    if |boarding| == 0 || |dropping| == 0 {
      return false;
    }
    if boarding[|boarding| - 1].sequence >= dropping[0].sequence {
      return false;
    }
    ok := CheckList(boarding, []);
    assert [] + StopKeys(boarding) == StopKeys(boarding);
    if !ok {
      FrontNoDup(StopKeys(boarding), StopKeys(dropping));
      return false;
    }
    ok := CheckList(dropping, StopKeys(boarding));
    if !ok {
      return false;
    }
    if Find(find, boarding[0]) != Some(bus.origin) {
      return false;
    }
    ok := Find(find, dropping[|dropping| - 1]) == Some(bus.destination);
  }

  lemma FrontNoDup(a: seq<string>, b: seq<string>)
    ensures NoDup(a + b) ==> NoDup(a)
  {
    assert forall i :: 0 <= i < |a| ==> a[i] == (a + b)[i];
  }

  /** The boarding and the dropping pass accept the same groups, and then see the same order, however their two
      sorts break ties. */
  lemma PassesAgree(g: Group, bus: Bus, find: Lookup, sort: seq<Point> -> seq<Point>, sort': seq<Point> -> seq<Point>)
    requires SortsBy(sort, SEQ) && SortsBy(sort', SEQ)
    ensures Accepted(sort(g.boarding), sort(g.dropping), bus, find)
            <==> Accepted(sort'(g.boarding), sort'(g.dropping), bus, find)
    ensures Accepted(sort(g.boarding), sort(g.dropping), bus, find) ==>
              sort(g.boarding) == sort'(g.boarding) && sort(g.dropping) == sort'(g.dropping)
  {
    if Strict(sort(g.boarding), SEQ) {
      SortUnique(sort(g.boarding), sort'(g.boarding), SEQ);
    }
    if Strict(sort'(g.boarding), SEQ) {
      SortUnique(sort'(g.boarding), sort(g.boarding), SEQ);
    }
    if Strict(sort(g.dropping), SEQ) {
      SortUnique(sort(g.dropping), sort'(g.dropping), SEQ);
    }
    if Strict(sort'(g.dropping), SEQ) {
      SortUnique(sort'(g.dropping), sort(g.dropping), SEQ);
    }
  }

  // ---- Insertion -------------------------------------------------------------------------------------

  datatype Row = Row(instance: nat, stop: nat, time: int, sequence: int, landmark: string)

  predicate HasRow(rows: seq<Row>, instance: nat, stop: nat) {
    exists i :: 0 <= i < |rows| && rows[i].instance == instance && rows[i].stop == stop
  }

  predicate AllFound(points: seq<Point>, find: Lookup) {
    forall i :: 0 <= i < |points| ==> Find(find, points[i]).Some?
  }

  function Stops(points: seq<Point>, find: Lookup): seq<nat>
    requires AllFound(points, find)
  {
    seq(|points|, i requires 0 <= i < |points| => Find(find, points[i]).value)
  }

  function Renumbered(instance: nat, points: seq<Point>, first: int, find: Lookup): (r: seq<Row>)
    requires AllFound(points, find)
  {
    seq(|points|, i requires 0 <= i < |points| =>
      Row(instance, Find(find, points[i]).value, points[i].time, first + i, points[i].landmark))
  }

  /** FirstOrCreate point after point: a stop the instance already has gets no second row. */
  function Created(rows: seq<Row>, instance: nat, points: seq<Point>, first: int, find: Lookup): seq<Row>
    requires AllFound(points, find)
  {
    if points == [] then rows
    else
      var n := |points| - 1;
      var before := Created(rows, instance, points[..n], first, find);
      var stop := Find(find, points[n]).value;
      if HasRow(before, instance, stop) then before
      else before + [Row(instance, stop, points[n].time, first + n, points[n].landmark)]
  }

  /** The insertion loop; it ends early, as the process does, on a stop that is not in the database. */
  method Insert(rows: seq<Row>, instance: nat, points: seq<Point>, first: int, find: Lookup)
    returns (r: seq<Row>, done: bool)
    ensures done <==> AllFound(points, find)
    ensures done ==> r == Created(rows, instance, points, first, find)
  {
    r := rows;
    for i := 0 to |points|
      invariant AllFound(points[..i], find)
      invariant r == Created(rows, instance, points[..i], first, find)
    {
      var p := points[i];
      assert points[..i + 1][..i] == points[..i];
      var stop := Find(find, p);
      if stop.None? {
        return r, false;
      }
      if !HasRow(r, instance, stop.value) {
        r := r + [Row(instance, stop.value, p.time, first + i, p.landmark)];
      }
    }
    assert points[..|points|] == points;
    return r, true;
  }

  datatype Outcome = Skipped | Seeded | Crashed

  /** One pass over one group: sort, check, then number the boarding points from 1 or the dropping points on
      from the last boarding point. */
  method SeedGroup(rows: seq<Row>, instance: nat, g: Group, bus: Bus, find: Lookup, sort: seq<Point> -> seq<Point>,
                   isBoardingMode: bool)
    returns (r: seq<Row>, out: Outcome)
    ensures var b, d := sort(g.boarding), sort(g.dropping); var points := if isBoardingMode then b else d;
            && (out.Skipped? <==> !Accepted(b, d, bus, find))
            && (out.Seeded? <==> Accepted(b, d, bus, find) && AllFound(points, find))
            && (out.Skipped? ==> r == rows)
            && (out.Seeded? ==> r == Created(rows, instance, points, if isBoardingMode then 1 else |b| + 1, find))
  {
    r := rows;
    var boarding, dropping := sort(g.boarding), sort(g.dropping);
    var ok := Validate(boarding, dropping, bus, find);
    if !ok {
      return r, Skipped;
    }
    var done;
    if isBoardingMode {
      r, done := Insert(rows, instance, boarding, 1, find);
    } else {
      r, done := Insert(rows, instance, dropping, |boarding| + 1, find);
    }
    out := if done then Seeded else Crashed;
  }

  lemma HasRowSnoc(rows: seq<Row>, row: Row, instance: nat, stop: nat)
    ensures HasRow(rows + [row], instance, stop)
            <==> HasRow(rows, instance, stop) || (row.instance == instance && row.stop == stop)
  {
    var all := rows + [row];
    if HasRow(rows, instance, stop) {
      var i :| 0 <= i < |rows| && rows[i].instance == instance && rows[i].stop == stop;
      assert all[i] == rows[i];
    }
    if row.instance == instance && row.stop == stop {
      assert all[|rows|] == row;
    }
  }

  lemma {:induction false} CreatedStops(rows: seq<Row>, instance: nat, points: seq<Point>, first: int, find: Lookup,
                                        stop: nat)
    requires AllFound(points, find) && forall i :: 0 <= i < |rows| ==> rows[i].instance != instance
    ensures HasRow(Created(rows, instance, points, first, find), instance, stop) <==> stop in Stops(points, find)
    decreases |points|
  {
    if points != [] {
      var n := |points| - 1;
      var before, s := Created(rows, instance, points[..n], first, find), Find(find, points[n]).value;
      CreatedStops(rows, instance, points[..n], first, find, stop);
      assert Stops(points, find) == Stops(points[..n], find) + [s];
      HasRowSnoc(before, Row(instance, s, points[n].time, first + n, points[n].landmark), instance, stop);
    }
  }

  lemma {:induction false} CreatedCovers(rows: seq<Row>, instance: nat, points: seq<Point>, first: int, find: Lookup)
    requires AllFound(points, find) && forall i :: 0 <= i < |rows| ==> rows[i].instance != instance
    ensures |Created(rows, instance, points, first, find)| <= |rows| + |points|
    ensures NoDup(Stops(points, find)) ==>
              Created(rows, instance, points, first, find) == rows + Renumbered(instance, points, first, find)
    ensures !NoDup(Stops(points, find)) ==> |Created(rows, instance, points, first, find)| < |rows| + |points|
    decreases |points|
  {
    if points != [] {
      var n := |points| - 1;
      var init, stop := points[..n], Find(find, points[n]).value;
      CreatedCovers(rows, instance, init, first, find);
      CreatedStops(rows, instance, init, first, find, stop);
      assert Stops(points, find) == Stops(init, find) + [stop];
      NoDupSnoc(Stops(init, find), stop);
      assert Renumbered(instance, points, first, find)
          == Renumbered(instance, init, first, find)
             + [Row(instance, stop, points[n].time, first + n, points[n].landmark)];
    }
  }

  /** Created afresh, the points get the numbers first, first + 1, ... in their own order exactly when no two of
      them name the same stop row. */
  lemma RenumberedIff(rows: seq<Row>, instance: nat, points: seq<Point>, first: int, find: Lookup)
    requires AllFound(points, find) && forall i :: 0 <= i < |rows| ==> rows[i].instance != instance
    ensures Created(rows, instance, points, first, find) == rows + Renumbered(instance, points, first, find)
            <==> NoDup(Stops(points, find))
  {
    CreatedCovers(rows, instance, points, first, find);
  }

  /** Two accepted points can still be one stop: a city left out on one of them escapes the duplicate check. */
  lemma SameStopTwice()
    ensures var p, q, d := Point("Depot", "", 0, 1, ""), Point("Depot", "Kochi", 5, 2, ""),
                           Point("Beach", "Kochi", 9, 3, "");
            var find := (name: string, city: string) => if name == "Depot" then Some(7) else Some(8);
            Accepted([p, q], [d], Bus(7, 8), find) && AllFound([p, q], find) && !NoDup(Stops([p, q], find))
  {
    var p, q, d := Point("Depot", "", 0, 1, ""), Point("Depot", "Kochi", 5, 2, ""), Point("Beach", "Kochi", 9, 3, "");
    var find := (name: string, city: string) => if name == "Depot" then Some(7) else Some(8);
    assert |StopKey(p)| == 6 && |StopKey(q)| == 11 && |StopKey(d)| == 11;
    assert StopKey(q)[0] == 'D' && StopKey(d)[0] == 'B';
    assert StopKeys([p, q]) + StopKeys([d]) == [StopKey(p), StopKey(q), StopKey(d)];
    assert Stops([p, q], find)[0] == Stops([p, q], find)[1];
  }

  // ---- Reading a route -------------------------------------------------------------------------------

  datatype RouteStop = RouteStop(row: Row, boarding: bool)

  const STOP_SEQ: RouteStop -> int := (s: RouteStop) => s.row.sequence

  function Merge(boarding: seq<Row>, dropping: seq<Row>): seq<RouteStop> {
    seq(|boarding|, i requires 0 <= i < |boarding| => RouteStop(boarding[i], true))
    + seq(|dropping|, i requires 0 <= i < |dropping| => RouteStop(dropping[i], false))
  }

  method GetRoute(boarding: seq<Row>, dropping: seq<Row>, sort: seq<RouteStop> -> seq<RouteStop>)
    returns (route: seq<RouteStop>)
    ensures route == sort(Merge(boarding, dropping))
  {
    route := [];
    for i := 0 to |boarding|
      invariant route == Merge(boarding[..i], [])
    {
      route := route + [RouteStop(boarding[i], true)];
    }
    for i := 0 to |dropping|
      invariant route == Merge(boarding, dropping[..i])
    {
      route := route + [RouteStop(dropping[i], false)];
    }
    assert dropping[..|dropping|] == dropping;
    route := sort(route);
  }

  /** The rows of an accepted group, created afresh. */
  function BoardingRows(instance: nat, b: seq<Point>, find: Lookup): seq<Row>
    requires AllFound(b, find)
  {
    Renumbered(instance, b, 1, find)
  }

  function DroppingRows(instance: nat, b: seq<Point>, d: seq<Point>, find: Lookup): seq<Row>
    requires AllFound(d, find)
  {
    Renumbered(instance, d, |b| + 1, find)
  }

  /** In whatever order the rows come back and however the sort treats ties, the route is the boarding points
      followed by the dropping points, in their own order. */
  lemma RouteInOrder(instance: nat, b: seq<Point>, d: seq<Point>, find: Lookup, boarding: seq<Row>, dropping: seq<Row>,
                     sort: seq<RouteStop> -> seq<RouteStop>)
    requires AllFound(b, find) && AllFound(d, find) && SortsBy(sort, STOP_SEQ)
    requires multiset(boarding) == multiset(BoardingRows(instance, b, find))
    requires multiset(dropping) == multiset(DroppingRows(instance, b, d, find))
    ensures sort(Merge(boarding, dropping))
            == Merge(BoardingRows(instance, b, find), DroppingRows(instance, b, d, find))
  {
    var whole := Merge(BoardingRows(instance, b, find), DroppingRows(instance, b, d, find));
    MergeElements(boarding, BoardingRows(instance, b, find), dropping, DroppingRows(instance, b, d, find));
    SortUnique(whole, sort(Merge(boarding, dropping)), STOP_SEQ);
  }

  function Tagged(rows: seq<Row>, boarding: bool): seq<RouteStop> {
    seq(|rows|, i requires 0 <= i < |rows| => RouteStop(rows[i], boarding))
  }

  lemma {:induction false} TaggedElements(a: seq<Row>, boarding: bool, s: RouteStop)
    ensures multiset(Tagged(a, boarding))[s] == if s.boarding == boarding then multiset(a)[s.row] else 0
    decreases |a|
  {
    if a == [] {
      assert Tagged(a, boarding) == [];
    } else {
      var n := |a| - 1;
      TaggedElements(a[..n], boarding, s);
      assert a == a[..n] + [a[n]];
      assert Tagged(a, boarding) == Tagged(a[..n], boarding) + [RouteStop(a[n], boarding)];
    }
  }

  lemma MergeElements(b: seq<Row>, b': seq<Row>, d: seq<Row>, d': seq<Row>)
    requires multiset(b) == multiset(b') && multiset(d) == multiset(d')
    ensures multiset(Merge(b, d)) == multiset(Merge(b', d'))
  {
    forall s: RouteStop
      ensures multiset(Merge(b, d))[s] == multiset(Merge(b', d'))[s]
    {
      TaggedElements(b, true, s);
      TaggedElements(b', true, s);
      TaggedElements(d, false, s);
      TaggedElements(d', false, s);
      assert Merge(b, d) == Tagged(b, true) + Tagged(d, false) && Merge(b', d') == Tagged(b', true) + Tagged(d', false);
    }
  }

  // ---- Cloning ---------------------------------------------------------------------------------------

  function Cloned(row: Row, from: int, instance: nat, departure: int): Row {
    Row(instance, row.stop, departure + (row.time - from), row.sequence, row.landmark)
  }

  function CloneAll(rows: seq<Row>, from: int, instance: nat, departure: int): (r: seq<Row>)
    ensures |r| == |rows|
  {
    seq(|rows|, i requires 0 <= i < |rows| => Cloned(rows[i], from, instance, departure))
  }

  method ClonePoints(rows: seq<Row>, from: int, instance: nat, departure: int) returns (r: seq<Row>)
    ensures r == CloneAll(rows, from, instance, departure)
  {
    r := [];
    for i := 0 to |rows|
      invariant r == CloneAll(rows[..i], from, instance, departure)
    {
      var offset := rows[i].time - from;
      r := r + [Row(instance, rows[i].stop, departure + offset, rows[i].sequence, rows[i].landmark)];
    }
    assert rows[..|rows|] == rows;
  }

  /** Instances made one after another, each cloned from the one before; (instance, departure) pairs. */
  function Chain(rows: seq<Row>, from: int, days: seq<(nat, int)>): seq<Row>
    decreases |days|
  {
    if days == [] then rows
    else
      var (instance, departure) := days[0];
      Chain(CloneAll(rows, from, instance, departure), departure, days[1..])
  }

  /** However many days are cloned from one another, stop, sequence and offset from departure never drift. */
  lemma {:induction false} ChainKeepsRoute(rows: seq<Row>, from: int, days: seq<(nat, int)>, i: nat)
    requires i < |rows| && days != []
    ensures |Chain(rows, from, days)| == |rows|
    ensures var (instance, departure) := days[|days| - 1];
            Chain(rows, from, days)[i]
            == Row(instance, rows[i].stop, departure + (rows[i].time - from), rows[i].sequence, rows[i].landmark)
    decreases |days|
  {
    var (instance, departure) := days[0];
    var next := CloneAll(rows, from, instance, departure);
    if |days| > 1 {
      assert days[1..][|days[1..]| - 1] == days[|days| - 1];
      ChainKeepsRoute(next, departure, days[1..], i);
    } else {
      assert days[1..] == [];
    }
  }

  /** So on every cloned day the points are numbered 1, 2, ... along the whole route, and every boarding point may be
      combined with every dropping point. */
  lemma EveryPairBookable(instance: nat, b: seq<Point>, d: seq<Point>, find: Lookup, from: int, days: seq<(nat, int)>,
                          i: nat, j: nat)
    requires AllFound(b, find) && AllFound(d, find) && i < |b| && j < |d|
    ensures var board, drop := Chain(BoardingRows(instance, b, find), from, days),
                               Chain(DroppingRows(instance, b, d, find), from, days);
            && |board| == |b| && |drop| == |d| && board[i].sequence == i + 1 && drop[j].sequence == |b| + j + 1
            && board[i].sequence < drop[j].sequence
  {
    if days != [] {
      ChainKeepsRoute(BoardingRows(instance, b, find), from, days, i);
      ChainKeepsRoute(DroppingRows(instance, b, d, find), from, days, j);
    }
  }
}
