/** What the figures of the risk tracker mean, told from the series of updates alone. */
module RiskLaws {
  import opened Risk

  // ----- Falls -----

  // At least the part 1 - d is left, or just that part.
  predicate Keeps(a: real, b: real, d: real) {
    b >= a * (1.0 - d)
  }

  predicate Leaves(a: real, b: real, d: real) {
    b == a * (1.0 - d)
  }

  // What is left of the start after the fall is the value.
  lemma FallIs(a: real, b: real, d: real)
    requires a > 0.0
    ensures Drawdown(a, b) <= d <==> Keeps(a, b, d)
    ensures Drawdown(a, b) == d <==> Leaves(a, b, d)
  {
    var f := Drawdown(a, b);
    assert f * a == a - b;
    assert a * (1.0 - d) == a - d * a;
    assert (d - f) * a == b - a * (1.0 - d);
    SignOfProduct(d - f, a);
  }

  lemma SignOfProduct(x: real, a: real)
    requires a > 0.0
    ensures x * a >= 0.0 <==> x >= 0.0
    ensures x * a == 0.0 <==> x == 0.0
  {
  }

  // The largest fall d: every value keeps at least the part 1 - d of every positive value before
  // it, and no smaller d would do.
  lemma LargestFallIs(e: seq<real>, d: real)
    requires IsMaxFall(e, d)
    ensures forall i, j :: 0 <= i <= j < |e| && e[i] > 0.0 ==> Keeps(e[i], e[j], d)
    ensures d > 0.0 ==> exists i, j :: 0 <= i <= j < |e| && e[i] > 0.0 && Leaves(e[i], e[j], d)
    ensures d >= 0.0
  {
    hide Drawdown, Keeps, Leaves;
    forall i, j | 0 <= i <= j < |e| && e[i] > 0.0
      ensures Keeps(e[i], e[j], d)
    {
      FallIs(e[i], e[j], d);
    }
    if d > 0.0 {
      var i, j :| 0 <= i <= j < |e| && e[i] > 0.0 && Drawdown(e[i], e[j]) == d;
      FallIs(e[i], e[j], d);
    }
  }

  // ----- Days -----

  // The values that days open with: the first value, and every one on another day than the value
  // before it.
  function Opens(ts: seq<Tick>): (os: seq<real>)
    ensures ts != [] ==> os != []
    decreases |ts|
  {
    if ts == [] then []
    else
      var n := |ts| - 1;
      var os := Opens(ts[..n]);
      if n == 0 || ts[n].day != ts[n - 1].day then os + [ts[n].equity] else os
  }

  // The value that the latest day opened with, or the initial one before any update.
  function Open(initial: real, ts: seq<Tick>): real {
    if ts == [] then initial else Opens(ts)[|Opens(ts)| - 1]
  }

  // The day's start is moved at most once by an update.
  lemma DayStep(initial: real, ts: seq<Tick>)
    requires ts != []
    ensures var n := |ts| - 1; var s, u := After(initial, ts[..n]), After(initial, ts);
      && u.lastDay == ts[n].day
      && u.dayStart == if s.lastDay == 0 || ts[n].day != s.lastDay then ts[n].equity else s.dayStart
  {
    hide Raised, Push, Capped, DailyReturn, Risk.Records, Larger;
  }

  lemma {:induction false} DayStartIsOpen(initial: real, ts: seq<Tick>)
    ensures After(initial, ts).dayStart == Open(initial, ts)
    ensures After(initial, ts).lastDay == if ts == [] then 0 else ts[|ts| - 1].day
    decreases |ts|
  {
    if ts != [] {
      DayStep(initial, ts);
      DayStartIsOpen(initial, ts[..|ts| - 1]);
      hide After;
    }
  }

  function Rate(a: real, b: real): real
    requires a > 0.0
  {
    b / a - 1.0
  }

  // The current value is the latest.
  lemma CurrentIsLast(initial: real, ts: seq<Tick>)
    ensures After(initial, ts).current == if ts == [] then initial else ts[|ts| - 1].equity
  {
    hide Raised, Push, Capped, DailyReturn, Risk.Records, Larger;
  }

  // The relative growth from each opening value to the next, left out behind one that is not
  // positive.
  function Growth(os: seq<real>): seq<real>
    decreases |os|
  {
    if |os| < 2 then []
    else
      var n := |os| - 1;
      if os[n - 1] > 0.0 then Growth(os[..n]) + [Rate(os[n - 1], os[n])] else Growth(os[..n])
  }

  lemma GrowthStep(os: seq<real>, x: real)
    requires os != []
    ensures Growth(os + [x]) ==
      if os[|os| - 1] > 0.0 then Growth(os) + [Rate(os[|os| - 1], x)] else Growth(os)
  {
    hide Rate;
    assert (os + [x])[..|os|] == os;
  }

  lemma ReturnStep(initial: real, ts: seq<Tick>)
    requires ts != []
    ensures var n := |ts| - 1; var s := After(initial, ts[..n]);
      Returns(initial, ts) ==
        if s.lastDay != 0 && ts[n].day != s.lastDay && s.dayStart > 0.0 then
          Returns(initial, ts[..n]) + [Rate(s.dayStart, ts[n].equity)]
        else Returns(initial, ts[..n])
  {
    hide After, DailyReturn, Rate;
    var n := |ts| - 1;
    var s := After(initial, ts[..n]);
    if s.dayStart > 0.0 { ReturnIsGrowth(s.dayStart, ts[n].equity); }
  }

  lemma ReturnIsGrowth(start: real, x: real)
    requires start > 0.0
    ensures DailyReturn(start, x) == Rate(start, x)
  {
    var r, g := DailyReturn(start, x), x / start - 1.0;
    assert r * start == x - start;
    assert g * start == (x / start) * start - start == x - start;
    NoFactor(r - g, start);
  }

  lemma NoFactor(d: real, k: real)
    requires k > 0.0 && d * k == 0.0
    ensures d == 0.0
  {
  }

  // For every series the recorded returns are the growth from one day's opening to the next.
  lemma {:induction false} ReturnsAreGrowth(initial: real, ts: seq<Tick>)
    ensures Returns(initial, ts) == Growth(Opens(ts))
    decreases |ts|
  {
    if ts != [] {
      var n := |ts| - 1;
      hide After, Returns, Growth, Opens, Rate;
      ReturnStep(initial, ts);
      ReturnsAreGrowth(initial, ts[..n]);
      DayStartIsOpen(initial, ts[..n]);
      OpensStep(ts);
      if n > 0 {
        GrowthStep(Opens(ts[..n]), ts[n].equity);
      } else {
        NoGrowth([ts[0].equity]);
      }
    } else {
      hide After;
    }
  }

  lemma OpensStep(ts: seq<Tick>)
    requires ts != []
    ensures var n := |ts| - 1;
      Opens(ts) == if n == 0 then [ts[0].equity]
        else if ts[n].day != ts[n - 1].day then Opens(ts[..n]) + [ts[n].equity] else Opens(ts[..n])
  {
  }

  function Compound(rs: seq<real>): real
    decreases |rs|
  {
    if rs == [] then 1.0 else Compound(rs[..|rs| - 1]) * (1.0 + rs[|rs| - 1])
  }

  lemma CompoundStep(rs: seq<real>, r: real)
    ensures Compound(rs + [r]) == Compound(rs) * (1.0 + r)
  {
    assert (rs + [r])[..|rs|] == rs;
  }

  predicate PositiveButLast(os: seq<real>) {
    forall i :: 0 <= i < |os| - 1 ==> os[i] > 0.0
  }

  lemma Scales(first: real, product: real, a: real, b: real)
    requires a > 0.0 && first * product == a
    ensures first * (product * (1.0 + Rate(a, b))) == b
  {
    assert product * (1.0 + (b / a - 1.0)) == product * (b / a);
    assert first * (product * (b / a)) == (first * product) * (b / a);
    assert a * (b / a) == b;
  }

  lemma {:induction false} GrowthCompounds(os: seq<real>)
    requires os != [] && PositiveButLast(os)
    ensures os[0] * Compound(Growth(os)) == os[|os| - 1]
    decreases |os|
  {
    hide Growth, Compound, Rate;
    if |os| == 1 {
      NoGrowth(os);
    } else {
      var n := |os| - 1;
      GrowthCompounds(os[..n]);
      assert os[..n] + [os[n]] == os;
      var rs, r := Growth(os[..n]), Rate(os[n - 1], os[n]);
      GrowthStep(os[..n], os[n]);
      CompoundStep(rs, r);
      Scales(os[0], Compound(rs), os[n - 1], os[n]);
    }
  }

  // A return takes the opening value it starts from to the next one, and is positive exactly
  // when that is higher.
  predicate Links(a: real, r: real, b: real) {
    a * (1.0 + r) == b && (r > 0.0 <==> b > a)
  }

  lemma {:induction false} GrowthLinks(os: seq<real>, j: nat)
    requires PositiveButLast(os) && j < |os| - 1
    ensures |Growth(os)| == |os| - 1
    ensures Links(os[j], Growth(os)[j], os[j + 1])
    decreases |os|
  {
    hide Links, Rate;
    var n := |os| - 1;
    assert os[..n] + [os[n]] == os;
    GrowthStep(os[..n], os[n]);
    if n > 1 { GrowthLinks(os[..n], if j < n - 1 then j else 0); }
    if j == n - 1 { OneLink(os[j], os[n]); }
    if n == 1 { assert Growth(os[..1]) == []; }
    hide Growth;
  }

  lemma OneLink(a: real, b: real)
    requires a > 0.0
    ensures Links(a, Rate(a, b), b)
  {
    var r := b / a - 1.0;
    assert a * (b / a) == b;
    assert a * (1.0 + r) == a + a * r;
    if r > 0.0 { assert a * r > 0.0; }
    if r <= 0.0 { assert a * r <= 0.0; }
  }

  // While the days open with positive values, the returns compound to the equity curve: the first
  // opening value times all the factors is the present day's start. Each return is positive
  // exactly when its day opens above the one before.
  lemma ReturnsCompound(initial: real, ts: seq<Tick>)
    requires ts != [] && PositiveButLast(Opens(ts))
    ensures var os, rs := Opens(ts), Returns(initial, ts);
      && os[0] == ts[0].equity
      && os[0] * Compound(rs) == After(initial, ts).dayStart
      && |rs| == |os| - 1
      && forall j :: 0 <= j < |rs| ==> Links(os[j], rs[j], os[j + 1])
  {
    hide Links, After, Returns, Growth, Compound, Opens;
    var os := Opens(ts);
    ReturnsAreGrowth(initial, ts);
    DayStartIsOpen(initial, ts);
    GrowthCompounds(os);
    FirstOpen(ts);
    if |os| == 1 {
      NoGrowth(os);
    } else {
      GrowthLinks(os, 0);
      forall j | 0 <= j < |os| - 1
        ensures Links(os[j], Growth(os)[j], os[j + 1])
      {
        GrowthLinks(os, j);
      }
    }
  }

  lemma NoGrowth(os: seq<real>)
    requires |os| == 1
    ensures Growth(os) == [] && Compound(Growth(os)) == 1.0
  {
  }

  lemma {:induction false} FirstOpen(ts: seq<Tick>)
    requires ts != []
    ensures Opens(ts)[0] == ts[0].equity
    decreases |ts|
  {
    if |ts| > 1 { FirstOpen(ts[..|ts| - 1]); }
  }

  // The cells in use hold the last sixty of them.
  lemma WindowOfDays(initial: real, ts: seq<Tick>)
    ensures var w, rs := After(initial, ts).ring, Growth(Opens(ts));
      && w.count == (if |rs| < 60 then |rs| else 60) <= |w.cells|
      && multiset(w.cells[..w.count]) == multiset(rs[|rs| - w.count..])
  {
    WindowIsCircular(initial, ts);
    ReturnsAreGrowth(initial, ts);
    WindowHoldsRecentReturns(After(initial, ts).ring, Returns(initial, ts));
    hide After, Returns, Growth, Opens;
  }

  // ----- History -----

  predicate LaterThanAll(ts: seq<Tick>, now: int) {
    forall j :: 0 <= j < |ts| ==> ts[j].now < now
  }

  // The updates later than all before them, with their profit since the day opened. On the first
  // update of a day that is still the day before.
  function Records(initial: real, ts: seq<Tick>): seq<Point>
    decreases |ts|
  {
    if ts == [] then []
    else
      var n := |ts| - 1;
      var front, t := Records(initial, ts[..n]), ts[n];
      if LaterThanAll(ts[..n], t.now) then
        front + [Point(t.now, t.equity, t.equity - Open(initial, ts[..n]))]
      else front
  }

  // The last point has the latest time of all updates.
  ghost predicate EndsLatest(ps: seq<Point>, ts: seq<Tick>) {
    && (ps == [] <==> ts == [])
    && (ps != [] ==>
         && (exists j :: 0 <= j < |ts| && ts[j].now == ps[|ps| - 1].time)
         && forall j :: 0 <= j < |ts| ==> ts[j].now <= ps[|ps| - 1].time)
  }

  lemma EndsLatestStep(ps: seq<Point>, ts: seq<Tick>, t: Tick, p: Point)
    requires EndsLatest(ps, ts) && p.time == t.now
    ensures Risk.Records(ps, t.now) <==> LaterThanAll(ts, t.now)
    ensures EndsLatest(if Risk.Records(ps, t.now) then ps + [p] else ps, ts + [t])
  {
    var us := ts + [t];
    assert us[|ts|] == t;
    if ps != [] {
      var j :| 0 <= j < |ts| && ts[j].now == ps[|ps| - 1].time;
      assert us[j] == ts[j];
    }
  }

  lemma RecordsStep(initial: real, ts: seq<Tick>, t: Tick)
    ensures Records(initial, ts + [t]) ==
      if LaterThanAll(ts, t.now) then
        Records(initial, ts) + [Point(t.now, t.equity, t.equity - Open(initial, ts))]
      else Records(initial, ts)
  {
    hide Open, LaterThanAll;
    var us := ts + [t];
    assert us[..|ts|] == ts && us[|ts|] == t;
  }

  lemma PointsGoOn(initial: real, ts: seq<Tick>, t: Tick)
    requires Points(initial, ts) == Records(initial, ts) && EndsLatest(Points(initial, ts), ts)
    ensures Points(initial, ts + [t]) == Records(initial, ts + [t])
    ensures EndsLatest(Points(initial, ts + [t]), ts + [t])
  {
    hide After, Capped, Risk.Records, EndsLatest, LaterThanAll, Points, Open, Records, Ascending;
    HistoryIsCappedTail(initial, ts);
    DayStartIsOpen(initial, ts);
    var ps, p := Points(initial, ts), Point(t.now, t.equity, t.equity - Open(initial, ts));
    EndsLatestStep(ps, ts, t, p);
    CapOnceMore(ps, p);
    PointsStep(initial, ts, t);
    RecordsStep(initial, ts, t);
  }

  lemma {:induction false} PointsAreRecords(initial: real, ts: seq<Tick>)
    ensures Points(initial, ts) == Records(initial, ts)
    ensures EndsLatest(Points(initial, ts), ts)
    decreases |ts|
  {
    if ts != [] {
      hide Points, Records, EndsLatest;
      PointsAreRecords(initial, ts[..|ts| - 1]);
      PointsGoOn(initial, ts[..|ts| - 1], ts[|ts| - 1]);
      assert ts[..|ts| - 1] + [ts[|ts| - 1]] == ts;
    }
  }

  // The history is the last 28800 of them.
  lemma HistoryOfSeconds(initial: real, ts: seq<Tick>)
    ensures var ps := Records(initial, ts);
      After(initial, ts).history == if |ps| > 28800 then ps[|ps| - 28800..] else ps
  {
    PointsAreRecords(initial, ts);
    HistoryIsCappedTail(initial, ts);
    hide After, Points, Records;
  }

  // ----- Moments -----

  // The squared differences of a value to those before it, and of all pairs.
  function SquaresTo(v: seq<real>, x: real): real
    decreases |v|
  {
    if v == [] then 0.0 else SquaresTo(v[..|v| - 1], x) + Square(x - v[|v| - 1])
  }

  function PairSquares(v: seq<real>): real
    decreases |v|
  {
    if v == [] then 0.0 else PairSquares(v[..|v| - 1]) + SquaresTo(v[..|v| - 1], v[|v| - 1])
  }

  function SquareSum(v: seq<real>): real
    decreases |v|
  {
    if v == [] then 0.0 else SquareSum(v[..|v| - 1]) + Square(v[|v| - 1])
  }

  lemma SquareOfDifference(x: real, y: real)
    ensures (x - y) * (x - y) == x * x - 2.0 * (x * y) + y * y
    ensures (x + y) * (x + y) == x * x + 2.0 * (x * y) + y * y
  {
  }

  lemma OneMore(n: real, y: real)
    ensures (n + 1.0) * y == n * y + y
  {
  }

  lemma Expand(x: real, a: real, b: real)
    ensures x * (a + b) == x * a + x * b
  {
  }

  // The sum of the squared differences of n values to x, with their sum t and square sum q.
  predicate IsSum(s: real, n: real, x: real, t: real, q: real) {
    s == n * (x * x) - 2.0 * (x * t) + q
  }

  // The sum over all pairs of n values.
  predicate IsPairSum(p: real, n: real, t: real, q: real) {
    p == n * q - t * t
  }

  lemma OneMoreSquare(n: real, x: real, y: real, t: real, q: real, s: real)
    requires IsSum(s, n, x, t, q)
    ensures IsSum(s + Square(x - y), n + 1.0, x, t + y, q + Square(y))
  {
    SquareOfDifference(x, y);
    OneMore(n, x * x);
    Expand(x, t, y);
  }

  lemma OneMoreMember(n: real, y: real, t: real, q: real, p: real, s: real)
    requires IsPairSum(p, n, t, q) && IsSum(s, n, y, t, q)
    ensures IsPairSum(p + s, n + 1.0, t + y, q + Square(y))
  {
    SquareOfDifference(t, y);
    OneMore(n, q + y * y);
    Expand(n, q, y * y);
  }

  lemma Unfolded(v: seq<real>, x: real)
    requires v != []
    ensures var f, y := v[..|v| - 1], v[|v| - 1];
      && |v| as real == |f| as real + 1.0
      && SquaresTo(v, x) == SquaresTo(f, x) + Square(x - y)
      && Squares(v, x) == Squares(f, x) + Square(y - x)
      && PairSquares(v) == PairSquares(f) + SquaresTo(f, y)
      && SquareSum(v) == SquareSum(f) + Square(y)
      && Total(v) == Total(f) + y
  {
  }

  lemma OfNone(x: real)
    ensures IsSum(SquaresTo([], x), 0.0, x, Total([]), SquareSum([])) && Squares([], x) == SquaresTo([], x)
    ensures IsPairSum(PairSquares([]), 0.0, Total([]), SquareSum([]))
  {
  }

  lemma {:induction false} SquaresToIs(v: seq<real>, x: real)
    ensures IsSum(SquaresTo(v, x), |v| as real, x, Total(v), SquareSum(v))
    decreases |v|
  {
    hide *;
    if v == [] {
      OfNone(x);
    } else {
      var f := v[..|v| - 1];
      SquaresToIs(f, x);
      Unfolded(v, x);
      OneMoreSquare(|f| as real, x, v[|v| - 1], Total(f), SquareSum(f), SquaresTo(f, x));
    }
  }

  lemma SameSquare(x: real, y: real)
    ensures Square(x - y) == Square(y - x)
  {
  }

  lemma {:induction false} SquaresAlike(v: seq<real>, m: real)
    ensures Squares(v, m) == SquaresTo(v, m)
    decreases |v|
  {
    hide *;
    if v == [] {
      OfNone(m);
    } else {
      SquaresAlike(v[..|v| - 1], m);
      Unfolded(v, m);
      SameSquare(v[|v| - 1], m);
    }
  }

  lemma {:induction false} PairSquaresIs(v: seq<real>)
    ensures IsPairSum(PairSquares(v), |v| as real, Total(v), SquareSum(v))
    decreases |v|
  {
    hide *;
    if v == [] {
      OfNone(0.0);
    } else {
      var f, y := v[..|v| - 1], v[|v| - 1];
      PairSquaresIs(f);
      SquaresToIs(f, y);
      Unfolded(v, y);
      OneMoreMember(|f| as real, y, Total(f), SquareSum(f), PairSquares(f), SquaresTo(f, y));
    }
  }

  // The mean is the value the deviations from which cancel; the sample variance is half the mean
  // square of the differences of all ordered pairs of two members.
  lemma MomentsAreRight(v: seq<real>)
    requires |v| >= 2
    ensures (|v| as real) * Mean(v) == Total(v)
    ensures SampleVariance(v) * ((|v| as real) * ((|v| - 1) as real)) == PairSquares(v)
  {
    hide Total, Squares, SquaresTo, SquareSum, PairSquares;
    SquaresAlike(v, Mean(v));
    SquaresToIs(v, Mean(v));
    PairSquaresIs(v);
    var t := Total(v);
    Divided(t, |v| as real);
    VarianceOfPairs(|v| as real, (|v| - 1) as real, Mean(v), t, SquareSum(v), Squares(v, Mean(v)));
  }

  lemma Divided(t: real, n: real)
    requires n > 0.0
    ensures n * (t / n) == t
  {
  }

  lemma VarianceOfPairs(n: real, d: real, m: real, t: real, q: real, x: real)
    requires d > 0.0 && n * m == t && x == n * (m * m) - 2.0 * (m * t) + q
    ensures x / d * (n * d) == n * q - t * t
  {
    assert x / d * (n * d) == n * x by {
      Divided(x, d);
      assert x / d * (n * d) == n * (d * (x / d));
    }
    assert n * (m * m) == m * t;
    assert x == q - m * t;
    assert n * (m * t) == t * t;
    Expand(n, q, -(m * t));
  }
}
