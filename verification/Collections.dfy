/** Small facts about sequences, sets and rounding that every service needs. */
module Collections {

  datatype Option<+T> = None | Some(value: T)

  predicate NoDup<T(==)>(s: seq<T>) {
    forall i, j :: 0 <= i < j < |s| ==> s[i] != s[j]
  }

  lemma NoDupSnoc<T>(s: seq<T>, x: T)
    ensures NoDup(s + [x]) <==> NoDup(s) && x !in s
  {
    var t := s + [x];
    if NoDup(t) {
      assert forall i, j :: 0 <= i < j < |s| ==> s[i] == t[i] && s[j] == t[j];
      assert forall i :: 0 <= i < |s| ==> s[i] == t[i] != t[|s|];
    }
  }

  function SetOf<T>(s: seq<T>): set<T> {
    set x | x in s
  }

  lemma {:induction false} NoDupCardinality<T>(s: seq<T>)
    requires NoDup(s)
    ensures |SetOf(s)| == |s|
  {
    if s != [] {
      var last := |s| - 1;
      NoDupCardinality(s[..last]);
      assert SetOf(s) == SetOf(s[..last]) + {s[last]};
      assert s[last] !in s[..last];
    }
  }

  /** No element repeats exactly when the set of elements is as large as the sequence. */
  lemma {:induction false} DistinctByCount<T>(s: seq<T>)
    ensures |SetOf(s)| <= |s|
    ensures |SetOf(s)| == |s| <==> NoDup(s)
  {
    if s == [] {
      assert SetOf(s) == {};
    } else {
      var init, last := s[..|s| - 1], s[|s| - 1];
      assert s == init + [last];
      DistinctByCount(init);
      assert SetOf(s) == SetOf(init) + {last};
      assert last in init <==> last in SetOf(init);
      if last in init {
        var i :| 0 <= i < |init| && init[i] == last;
        assert s[i] == s[|s| - 1];
      }
    }
  }

  lemma {:induction false} SubsetSize<T>(a: set<T>, b: set<T>)
    requires a <= b
    ensures |a| <= |b|
  {
    assert b == a + (b - a);
  }

  /** change applied to every row. */
  function MapRows<T, U>(rows: seq<T>, change: T -> U): (r: seq<U>)
    ensures |r| == |rows| && forall i :: 0 <= i < |rows| ==> r[i] == change(rows[i])
  {
    seq(|rows|, i requires 0 <= i < |rows| => change(rows[i]))
  }

  lemma MapUpdate<T, U>(rows: seq<T>, i: nat, x: T, change: T -> U)
    requires i < |rows|
    ensures MapRows(rows[i := x], change) == MapRows(rows, change)[i := change(x)]
  {
  }

  lemma MapAppend<T, U>(rows: seq<T>, x: T, change: T -> U)
    ensures MapRows(rows + [x], change) == MapRows(rows, change) + [change(x)]
  {
  }

  /** UPDATE ... WHERE id IN ids: change applied to the named rows, all others as they were. */
  function UpdateRows<T>(rows: seq<T>, ids: seq<nat>, change: T -> T): (r: seq<T>)
    ensures |r| == |rows|
    ensures forall i :: 0 <= i < |rows| ==> r[i] == if i in ids then change(rows[i]) else rows[i]
  {
    seq(|rows|, i requires 0 <= i < |rows| => if i in ids then change(rows[i]) else rows[i])
  }

  /** The quotient a / b rounded to the nearest integer, halves upwards. */
  function RoundDiv(a: nat, b: nat): nat
    requires b > 0
  {
    (2 * a + b) / (2 * b)
  }

  lemma RoundDivNearest(a: nat, b: nat)
    requires b > 0
    ensures 2 * b * RoundDiv(a, b) <= 2 * a + b < 2 * b * (RoundDiv(a, b) + 1)
  {
  }

  lemma ScaleOrder(c: nat, x: int, y: int)
    ensures x <= y ==> c * x <= c * y
  {
    if x <= y {
      assert c * y - c * x == c * (y - x);
    }
  }

  lemma RoundDivMonotone(a: nat, a': nat, b: nat)
    requires b > 0 && a <= a'
    ensures RoundDiv(a, b) <= RoundDiv(a', b)
  {
    ScaleOrder(2 * b, RoundDiv(a', b) + 1, RoundDiv(a, b));
  }

  lemma RoundDivExact(a: nat, b: nat)
    requires b > 0
    ensures RoundDiv(a * b, b) == a
  {
    var q := RoundDiv(a * b, b);
    assert 2 * (a * b) == (2 * b) * a;
    ScaleOrder(2 * b, q + 1, a);
    ScaleOrder(2 * b, a + 1, q);
  }

  lemma DivModOf(q: nat, r: nat, d: nat)
    requires r < d
    ensures (q * d + r) / d == q && (q * d + r) % d == r
  {
    var i := q * d + r;
    assert i == (i / d) * d + i % d;
    ScaleOrder(d, q + 1, i / d);
    ScaleOrder(d, i / d + 1, q);
  }
}
