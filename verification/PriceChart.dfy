/** Thinning a price series for the chart and dragging its two lines,
    frontend/src/features/market-data/daily-price-chart.tsx. Prices of the lines are in cents. */
module PriceChart {

  const MAX_RENDERED_POINTS := 1_500

  function CeilingOf(n: nat, d: nat): nat
    requires d > 0
  {
    (n + d - 1) / d
  }

  function Step(n: nat): (step: nat)
    ensures step > 0
  {
    var s := CeilingOf(n, MAX_RENDERED_POINTS);
    if s > 1 then s else 1
  }

  predicate Keeps(n: nat, i: nat) {
    i == 0 || i == n - 1 || i % Step(n) == 0
  }

  /** The indices from `from` on that the filter keeps. */
  function KeptFrom(n: nat, from: nat): (r: seq<nat>)
    requires from <= n
    ensures forall k | 0 <= k < |r| :: r[k] < n
    decreases n - from
  {
    if from == n then [] else (if Keeps(n, from) then [from] else []) + KeptFrom(n, from + 1)
  }

  function Rendered<T>(items: seq<T>): seq<T> {
    var kept := KeptFrom(|items|, 0);
    seq(|kept|, k requires 0 <= k < |kept| => items[kept[k]])
  }

  // ----- how many -----

  lemma Quotient(x: nat, d: nat, q: nat, m: nat)
    requires d > 0 && m < d && x == q * d + m
    ensures x / d == q && x % d == m
  {
    var e := q - x / d;
    assert x == x / d * d + x % d;
    assert e * d == x % d - m;
    assert e >= 1 ==> e * d >= d;
    assert e <= -1 ==> e * d + d <= 0;
  }

  lemma NextMultiple(i: nat, d: nat)
    requires d > 0
    ensures CeilingOf(i + 1, d) == CeilingOf(i, d) + if i % d == 0 then 1 else 0
  {
    var q, m := i / d, i % d;
    assert i == q * d + m && (q + 1) * d == q * d + d;
    Quotient(i + d, d, q + 1, m);
    if m == 0 { Quotient(i + d - 1, d, q, d - 1); } else { Quotient(i + d - 1, d, q + 1, m - 1); }
  }

  /** How many indices are kept: the multiples of the step, and the last one if it is none. */
  lemma {:induction false} KeptCount(n: nat, from: nat)
    requires from <= n
    ensures |KeptFrom(n, from)| ==
              CeilingOf(n, Step(n)) - CeilingOf(from, Step(n)) + (if from < n && (n - 1) % Step(n) != 0 then 1 else 0)
    decreases n - from
  {
    if from < n {
      NextMultiple(from, Step(n));
      KeptCount(n, from + 1);
      MultipleZero(Step(n));
    }
  }

  lemma MultipleZero(d: nat)
    requires d > 0
    ensures 0 % d == 0 && CeilingOf(0, d) == 0
  {
  }

  lemma FewMultiples(n: nat)
    ensures CeilingOf(n, Step(n)) <= MAX_RENDERED_POINTS
  {
    var d, c := Step(n), CeilingOf(n, Step(n));
    assert n + d - 1 == c * d + (n + d - 1) % d;
    assert n <= MAX_RENDERED_POINTS * d;
    assert c > MAX_RENDERED_POINTS ==> c * d >= (MAX_RENDERED_POINTS + 1) * d;
  }

  // ----- which -----

  /** Kept indices ascend from the first to the last, in gaps of at most the step. */
  lemma {:induction false} KeptAscend(n: nat, from: nat)
    requires from < n && Keeps(n, from)
    ensures var r := KeptFrom(n, from);
            && |r| > 0 && r[0] == from && r[|r| - 1] == n - 1 && |r| <= n - from
            && forall k | 0 <= k < |r| - 1 :: r[k] < r[k + 1] <= r[k] + Step(n)
    decreases n - from
  {
    if from < n - 1 {
      var next := NextKept(n, from);
      SkipTo(n, from + 1, next);
      KeptAscend(n, next);
      var rest := KeptFrom(n, next);
      var r := KeptFrom(n, from);
      assert r == [from] + rest;
      forall k | 0 <= k < |r| - 1 ensures r[k] < r[k + 1] <= r[k] + Step(n) {
        if k > 0 { assert r[k] == rest[k - 1] && r[k + 1] == rest[k]; }
      }
    } else {
      assert KeptFrom(n, n) == [];
    }
  }

  lemma NextKept(n: nat, from: nat) returns (next: nat)
    requires from < n - 1 && Keeps(n, from)
    ensures from < next < n && next <= from + Step(n) && Keeps(n, next)
    ensures forall i | from < i < next :: !Keeps(n, i)
  {
    next := from + 1;
    while !Keeps(n, next)
      invariant from < next < n && next <= from + Step(n)
      invariant forall i | from < i < next :: !Keeps(n, i)
      decreases n - next
    {
      StepKept(n, from);
      next := next + 1;
    }
  }

  lemma StepKept(n: nat, from: nat)
    requires from < n && Keeps(n, from)
    ensures from == n - 1 || from + Step(n) >= n || Keeps(n, from + Step(n))
  {
    var d := Step(n);
    if from == 0 { Quotient(d, d, 1, 0); } else if from != n - 1 {
      assert from == from / d * d && (from / d + 1) * d == from / d * d + d;
      Quotient(from + d, d, from / d + 1, 0);
    }
  }

  lemma {:induction false} SkipTo(n: nat, from: nat, next: nat)
    requires from <= next <= n && forall i | from <= i < next :: !Keeps(n, i)
    ensures KeptFrom(n, from) == KeptFrom(n, next)
    decreases next - from
  {
    if from < next { SkipTo(n, from + 1, next); }
  }

  lemma {:induction false} AllKept(n: nat, from: nat)
    requires from <= n && Step(n) == 1
    ensures KeptFrom(n, from) == seq(n - from, k requires 0 <= k < n - from => from + k)
    decreases n - from
  {
    if from < n { AllKept(n, from + 1); }
  }

  /** At most one point more than the limit is drawn, never more than there are; the first and last stay, and a
      series within the limit is drawn whole. */
  lemma ThinningKeepsShape<T>(items: seq<T>)
    ensures var r := Rendered(items);
            && |r| <= MAX_RENDERED_POINTS + 1 && |r| <= |items|
            && (|items| > 0 ==> |r| > 0 && r[0] == items[0] && r[|r| - 1] == items[|items| - 1])
            && (|items| <= MAX_RENDERED_POINTS ==> r == items)
  {
    KeptCount(|items|, 0);
    FewMultiples(|items|);
    MultipleZero(Step(|items|));
    if |items| > 0 { KeptAscend(|items|, 0); }
    if |items| <= MAX_RENDERED_POINTS { AllKept(|items|, 0); }
  }

  /** The bound is reached. */
  lemma BoundIsReached<T>(items: seq<T>)
    requires |items| == 2 * MAX_RENDERED_POINTS
    ensures |Rendered(items)| == MAX_RENDERED_POINTS + 1
  {
    KeptCount(|items|, 0);
  }

  /** Kept are the first index, the last, and the multiples of the length divided by 1500 and rounded up. */
  lemma {:induction false} KeptIff(n: nat, from: nat, i: nat)
    requires from <= n
    ensures i in KeptFrom(n, from) <==>
              from <= i < n && (i == 0 || i == n - 1 || n <= 1500 || i % ((n + 1499) / 1500) == 0)
    decreases n - from
  {
    if from < n { KeptIff(n, from + 1, i); }
  }

  /** Drawn are the items at the kept indices, in their order. */
  lemma RenderedAt<T>(items: seq<T>, k: nat)
    requires k < |Rendered(items)|
    ensures |Rendered(items)| == |KeptFrom(|items|, 0)| && Rendered(items)[k] == items[KeptFrom(|items|, 0)[k]]
  {
  }

  // ----- dragging -----

  datatype Lines = Lines(support: int, resistance: int)

  /** A pointer move while one of the lines is held, at the price under the pointer. */
  datatype Drag = DragSupport(value: int) | DragResistance(value: int)

  function Move(l: Lines, d: Drag): Lines {
    match d
    case DragSupport(v) => l.(support := if v < l.resistance - 1 then v else l.resistance - 1)
    case DragResistance(v) => l.(resistance := if v > l.support + 1 then v else l.support + 1)
  }

  function Moves(l: Lines, ds: seq<Drag>): Lines
    decreases |ds|
  {
    if |ds| == 0 then l else Moves(Move(l, ds[0]), ds[1..])
  }

  /** The held line goes where the pointer is if that leaves a cent between the lines, else as near as it may; the other
      line stays. */
  lemma DragFollowsPointer(l: Lines, value: int)
    ensures Move(l, DragSupport(value)).resistance == l.resistance
    ensures Move(l, DragResistance(value)).support == l.support
    ensures value + 1 <= l.resistance ==> Move(l, DragSupport(value)).support == value
    ensures value + 1 > l.resistance ==> Move(l, DragSupport(value)).support + 1 == l.resistance
    ensures value >= l.support + 1 ==> Move(l, DragResistance(value)).resistance == value
    ensures value < l.support + 1 ==> Move(l, DragResistance(value)).resistance == l.support + 1
  {
  }

  /** After any drags the support is at least a cent below the resistance: it was so before, or there was a drag. */
  lemma {:induction false} DraggingKeepsGap(l: Lines, ds: seq<Drag>)
    requires l.support < l.resistance || |ds| > 0
    ensures Moves(l, ds).support < Moves(l, ds).resistance
    decreases |ds|
  {
    if |ds| > 0 { DraggingKeepsGap(Move(l, ds[0]), ds[1..]); }
  }
}
