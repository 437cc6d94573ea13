/**
 * The running average price of an order over a sequence of fills: what the truncating 64-bit
 * computation of the fill handler has to do with the true average.
 */
module Fills {
  import opened Arith
  import opened Engine
  import opened Orders
  import opened Words

  datatype Fill = Fill(qty: int32, px: int64, now: int64)

  // The order after the fills, each handled as the engine does.
  function FillAll(o: Order, fs: seq<Fill>): Order
    decreases |fs|
  {
    if fs == [] then o
    else
      var f := fs[|fs| - 1];
      Filled(FillAll(o, fs[..|fs| - 1]), f.qty, f.px, f.now)
  }

  function TotalQty(fs: seq<Fill>): int
    decreases |fs|
  {
    if fs == [] then 0 else TotalQty(fs[..|fs| - 1]) + fs[|fs| - 1].qty
  }

  function TotalValue(fs: seq<Fill>): int
    decreases |fs|
  {
    if fs == [] then 0 else TotalValue(fs[..|fs| - 1]) + fs[|fs| - 1].qty * fs[|fs| - 1].px
  }

  // Positive quantities at prices between lo and hi.
  predicate Priced(fs: seq<Fill>, lo: int, hi: int) {
    forall i :: 0 <= i < |fs| ==> fs[i].qty > 0 && lo <= fs[i].px <= hi
  }

  // The products and the sum that the handler forms all fit in 64 bits, and the new filled
  // quantity fits in 32.
  predicate NoOverflow(o: Order, f: Fill) {
    && -TWO_63 <= o.filledQty * o.filledAvgPx < TWO_63
    && -TWO_63 <= f.qty * f.px < TWO_63
    && -TWO_63 <= o.filledQty * o.filledAvgPx + f.qty * f.px < TWO_63
    && -TWO_31 <= o.filledQty + f.qty < TWO_31
  }

  lemma {:induction false} TotalIsPositive(fs: seq<Fill>)
    requires forall i :: 0 <= i < |fs| ==> fs[i].qty > 0
    ensures TotalQty(fs) >= |fs|
    decreases |fs|
  {
    if fs != [] { TotalIsPositive(fs[..|fs| - 1]); }
  }

  // One fill in exact arithmetic: the weighted sum lies between the bounds.
  lemma WeightedSum(q: nat, a: int, dq: nat, p: int, lo: int, hi: int)
    requires 0 <= lo <= p <= hi && (q > 0 ==> lo <= a <= hi)
    ensures lo * (q + dq) <= q * a + dq * p <= hi * (q + dq)
    ensures 0 <= q * a <= hi * (q + dq) && 0 <= dq * p <= hi * (q + dq)
  {
    Distribute(lo, q, dq);
    Distribute(hi, q, dq);
    Between(lo, p, hi, dq);
    if q > 0 { Between(lo, a, hi, q); }
    Monotone(0, hi, q);
    Monotone(0, hi, dq);
  }

  lemma Between(lo: int, a: int, hi: int, k: nat)
    requires 0 <= lo <= a <= hi
    ensures 0 <= lo * k <= k * a <= hi * k
  {
    Monotone(0, lo, k);
    Monotone(lo, a, k);
    Monotone(a, hi, k);
  }

  lemma ErrorStep(n: nat, qty: nat, dq: nat, error: int, r: int)
    requires n >= 1 && qty > 0 && dq > 0
    requires error <= (n - 1) * (qty - 1) && r <= qty + dq - 1
    ensures error + r <= n * (qty + dq - 1)
  {
    Monotone(qty - 1, qty + dq - 1, n - 1);
    assert (n - 1) * (qty + dq - 1) + (qty + dq - 1) == n * (qty + dq - 1);
  }

  // In range, the handler computes the plain quotient.
  lemma AverageInRange(q: int32, a: int64, dq: int32, p: int64, lo: int, hi: int)
    requires q >= 0 && dq > 0 && 0 <= lo <= p <= hi && (q > 0 ==> lo <= a <= hi)
    requires q + dq < TWO_31 && hi * (q + dq) < TWO_63
    ensures NewAverage(q, a, dq, p) == (q * a + dq * p) / (q + dq)
    ensures -TWO_63 <= q * a < TWO_63 && -TWO_63 <= dq * p < TWO_63
    ensures -TWO_63 <= q * a + dq * p < TWO_63
  {
    WeightedSum(q, a, dq, p, lo, hi);
    Monotone(0, lo, q + dq);
    var x, y, d: int := q * a, dq * p, q + dq;
    assert Wrap64(x) == x && Wrap64(y) == y && Wrap64(x + y) == x + y && Wrap32(d) == d;
  }

  // What is lost against the true value of the fills.
  function Shortfall(p: Order, fs: seq<Fill>): int {
    TotalValue(fs) - p.filledAvgPx * p.filledQty
  }

  // The filled quantity is exact, the average is between the prices, and the shortfall bounded.
  predicate Tracks(p: Order, fs: seq<Fill>, lo: int, hi: int) {
    && p.filledQty == TotalQty(fs) >= |fs|
    && (fs == [] ==> p.filledQty == 0)
    && (fs != [] ==>
      && lo <= p.filledAvgPx <= hi
      && 0 <= Shortfall(p, fs) <= (|fs| - 1) * (p.filledQty - 1))
  }

  // Positive quantities, nonnegative prices, and totals that fit: the total quantity in 32
  // bits and the total quantity times the highest price in 64.
  predicate Bounded(fs: seq<Fill>, lo: int, hi: int) {
    && 0 <= lo <= hi && Priced(fs, lo, hi)
    && TotalQty(fs) < TWO_31 && hi * TotalQty(fs) < TWO_63
  }

  lemma TotalsOfOneMore(fs: seq<Fill>, f: Fill)
    ensures TotalQty(fs + [f]) == TotalQty(fs) + f.qty
    ensures TotalValue(fs + [f]) == TotalValue(fs) + f.qty * f.px
  {
    assert (fs + [f])[..|fs|] == fs;
    assert (fs + [f])[|fs|] == f;
  }

  lemma PricedFront(fs: seq<Fill>, f: Fill, lo: int, hi: int)
    requires Priced(fs + [f], lo, hi)
    ensures Priced(fs, lo, hi) && f.qty > 0 && lo <= f.px <= hi
  {
    assert (fs + [f])[|fs|] == f;
    forall i | 0 <= i < |fs|
      ensures fs[i].qty > 0 && lo <= fs[i].px <= hi
    {
      assert (fs + [f])[i] == fs[i];
    }
  }

  lemma ScaledBelow(hi: int, a: int, b: int, limit: int)
    requires 0 <= hi && a <= b && hi * b < limit
    ensures hi * a < limit
  {
    Monotone(a, b, hi);
  }

  lemma BoundedFront(fs: seq<Fill>, f: Fill, lo: int, hi: int)
    requires Bounded(fs + [f], lo, hi)
    ensures Bounded(fs, lo, hi) && f.qty > 0 && lo <= f.px <= hi
    ensures TotalQty(fs + [f]) == TotalQty(fs) + f.qty && TotalQty(fs) >= |fs|
    ensures hi * (TotalQty(fs) + f.qty) < TWO_63
  {
    hide TotalQty, TotalValue, Priced;
    PricedFront(fs, f, lo, hi);
    CountIsPositive(fs, lo, hi);
    TotalsOfOneMore(fs, f);
    ScaledBelow(hi, TotalQty(fs), TotalQty(fs + [f]), TWO_63);
  }

  lemma CountIsPositive(fs: seq<Fill>, lo: int, hi: int)
    requires Priced(fs, lo, hi)
    ensures TotalQty(fs) >= |fs|
  {
    hide TotalQty;
    TotalIsPositive(fs);
  }

  lemma FilledInRange(p: Order, fs: seq<Fill>, f: Fill, lo: int, hi: int)
    requires Tracks(p, fs, lo, hi) && Bounded(fs + [f], lo, hi)
    ensures NoOverflow(p, f)
    ensures var next := Filled(p, f.qty, f.px, f.now);
      && next.filledQty == p.filledQty + f.qty > 0
      && next.filledAvgPx == (p.filledQty * p.filledAvgPx + f.qty * f.px) / (p.filledQty + f.qty)
      && lo <= next.filledAvgPx <= hi
  {
    BoundedFront(fs, f, lo, hi);
    AverageInRange(p.filledQty, p.filledAvgPx, f.qty, f.px, lo, hi);
    WeightedSum(p.filledQty, p.filledAvgPx, f.qty, f.px, lo, hi);
    QuotientBetween(p.filledQty * p.filledAvgPx + f.qty * f.px, p.filledQty + f.qty, lo, hi);
    hide NewAverage;
  }

  // The new average drops the remainder of the division and nothing else.
  lemma ShortfallGrows(p: Order, fs: seq<Fill>, f: Fill, lo: int, hi: int)
    requires Tracks(p, fs, lo, hi) && Bounded(fs + [f], lo, hi)
    ensures var next := Filled(p, f.qty, f.px, f.now);
      Shortfall(next, fs + [f]) ==
        Shortfall(p, fs) + (p.filledQty * p.filledAvgPx + f.qty * f.px) % (p.filledQty + f.qty)
  {
    FilledInRange(p, fs, f, lo, hi);
    TotalsOfOneMore(fs, f);
    hide Filled, Tracks, Bounded, TotalQty, TotalValue;
    RemainderIsDropped(TotalValue(fs), p.filledAvgPx, p.filledQty, f.px, f.qty);
  }

  lemma RemainderIsDropped(value: int, a: int, q: int, px: int, dq: int)
    requires q + dq > 0
    ensures var total, qty := q * a + dq * px, q + dq;
      (value + dq * px) - (total / qty) * qty == (value - a * q) + total % qty
  {
    Euclid(q * a + dq * px, q + dq);
  }

  lemma OneMoreFill(p: Order, fs: seq<Fill>, f: Fill, lo: int, hi: int)
    requires Tracks(p, fs, lo, hi) && Bounded(fs + [f], lo, hi)
    ensures Tracks(Filled(p, f.qty, f.px, f.now), fs + [f], lo, hi)
  {
    BoundedFront(fs, f, lo, hi);
    FilledInRange(p, fs, f, lo, hi);
    ShortfallGrows(p, fs, f, lo, hi);
    hide Filled, Bounded, TotalQty, TotalValue, Shortfall;
    var total, qty := p.filledQty * p.filledAvgPx + f.qty * f.px, p.filledQty + f.qty;
    var r := total % qty;
    Euclid(total, qty);
    if fs != [] {
      ErrorStep(|fs|, p.filledQty, f.qty, Shortfall(p, fs), r);
    } else {
      FirstFill(p, f);
    }
  }

  lemma FirstFill(p: Order, f: Fill)
    requires p.filledQty == 0 && f.qty > 0
    ensures (p.filledQty * p.filledAvgPx + f.qty * f.px) % (p.filledQty + f.qty) == 0
    ensures Shortfall(p, []) == 0
  {
    DivisionIs(f.qty * f.px, f.qty, f.px, 0);
  }

  // Over any bounded sequence of fills the filled quantity is exact, the stored average stays
  // between the lowest and highest price, and what it loses against the true value is at most
  // (n - 1) * (filled - 1).
  lemma {:induction false} StoredAverage(o: Order, fs: seq<Fill>, lo: int, hi: int)
    requires o.filledQty == 0 && Bounded(fs, lo, hi)
    ensures Tracks(FillAll(o, fs), fs, lo, hi)
    decreases |fs|
  {
    if fs != [] {
      var front, f := fs[..|fs| - 1], fs[|fs| - 1];
      assert front + [f] == fs;
      hide Tracks, Bounded, Filled;
      BoundedFront(front, f, lo, hi);
      StoredAverage(o, front, lo, hi);
      OneMoreFill(FillAll(o, front), front, f, lo, hi);
    }
  }

  // No product, sum or count that the handler forms leaves its machine word.
  lemma NothingOverflows(o: Order, fs: seq<Fill>, f: Fill, lo: int, hi: int)
    requires o.filledQty == 0 && Bounded(fs + [f], lo, hi)
    ensures NoOverflow(FillAll(o, fs), f)
  {
    hide Tracks, Bounded, FillAll, NoOverflow;
    BoundedFront(fs, f, lo, hi);
    StoredAverage(o, fs, lo, hi);
    FilledInRange(FillAll(o, fs), fs, f, lo, hi);
  }
}
