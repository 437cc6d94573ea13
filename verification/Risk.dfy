/** Rolling risk metrics over a series of portfolio values, in exact arithmetic. */
module Risk {

  const WINDOW: nat := 60
  const HISTORY_CAP: nat := 28800

  datatype Point = Point(time: int, equity: real, pnl: real)

  type Day = d: nat | 1 <= d <= 31 witness 1

  // One update: the portfolio value, the second it came in and the day of the month.
  datatype Tick = Tick(equity: real, now: int, day: Day)

  // The cells of the circular buffer of daily returns, its write index and its fill count.
  datatype Ring = Ring(cells: seq<real>, idx: nat, count: nat)

  // The largest drawdown so far: a float division by zero can make it infinite.
  datatype Figure = Finite(value: real) | Infinite

  datatype State = State(
    peak: real, current: real, maxDrawdown: Figure, ring: Ring,
    history: seq<Point>, dayStart: real, lastDay: nat)

  function Initial(equity: real): (s: State)
    ensures |s.ring.cells| == WINDOW
  {
    State(equity, equity, Finite(0.0), Ring(seq(WINDOW, i => 0.0), 0, 0), [], equity, 0)
  }

  // ----- One update -----

  function Larger(x: real, y: real): real {
    if x > y then x else y
  }

  function Drawdown(peak: real, equity: real): real
    requires peak != 0.0
  {
    (peak - equity) / peak
  }

  // The figure after a value below the peak. Over a zero peak a negative value gives plus
  // infinity, and a zero value gives no number, which compares as not larger.
  function Raised(d: Figure, peak: real, x: real): Figure {
    if peak == 0.0 then (if x < 0.0 then Infinite else d)
    else if d.Finite? && Drawdown(peak, x) > d.value then Finite(Drawdown(peak, x))
    else d
  }

  function DailyReturn(start: real, equity: real): real
    requires start != 0.0
  {
    (equity - start) / start
  }

  predicate Records(h: seq<Point>, now: int) {
    h == [] || h[|h| - 1].time < now
  }

  function Capped(h: seq<Point>): seq<Point> {
    if |h| > HISTORY_CAP then h[|h| - HISTORY_CAP..] else h
  }

  predicate NewDay(s: State, t: Tick) {
    t.day != s.lastDay && s.lastDay != 0
  }

  function Push(w: Ring, r: real): (v: Ring)
    requires |w.cells| == WINDOW
    ensures |v.cells| == WINDOW
  {
    Ring(w.cells[w.idx % WINDOW := r], w.idx + 1, if w.count < WINDOW then w.count + 1 else w.count)
  }

  function Update(s: State, t: Tick): (u: State)
    requires |s.ring.cells| == WINDOW
    ensures |u.ring.cells| == WINDOW
  {
    var peak := Larger(t.equity, s.peak);
    State(
      peak, t.equity, Raised(s.maxDrawdown, peak, t.equity),
      if NewDay(s, t) && s.dayStart > 0.0 then Push(s.ring, DailyReturn(s.dayStart, t.equity)) else s.ring,
      if Records(s.history, t.now) then Capped(s.history + [Point(t.now, t.equity, t.equity - s.dayStart)])
      else s.history,
      if NewDay(s, t) || s.lastDay == 0 then t.equity else s.dayStart,
      t.day)
  }

  function After(initial: real, ts: seq<Tick>): (s: State)
    ensures |s.ring.cells| == WINDOW
    decreases |ts|
  {
    if ts == [] then Initial(initial) else Update(After(initial, ts[..|ts| - 1]), ts[|ts| - 1])
  }

  // ----- Drawdown -----

  // The portfolio values seen so far, the initial one first.
  function Values(initial: real, ts: seq<Tick>): (e: seq<real>)
    ensures |e| == |ts| + 1
    decreases |ts|
  {
    if ts == [] then [initial] else Values(initial, ts[..|ts| - 1]) + [ts[|ts| - 1].equity]
  }

  ghost predicate IsMax(e: seq<real>, m: real) {
    (forall i :: 0 <= i < |e| ==> e[i] <= m) && (exists i :: 0 <= i < |e| && e[i] == m)
  }

  // The smallest positive value, or zero if there is none.
  ghost predicate IsLow(e: seq<real>, m: real) {
    && m >= 0.0 && (m == 0.0 || exists i :: 0 <= i < |e| && e[i] == m)
    && forall i :: 0 <= i < |e| && e[i] > 0.0 ==> 0.0 < m <= e[i]
  }

  // The largest relative fall from a positive value to itself or a later value, or zero if no
  // value is positive.
  ghost predicate IsMaxFall(e: seq<real>, d: real) {
    && d >= 0.0
    && (forall i, j :: 0 <= i <= j < |e| && e[i] > 0.0 ==> Drawdown(e[i], e[j]) <= d)
    && (d == 0.0 || exists i, j :: 0 <= i <= j < |e| && e[i] > 0.0 && Drawdown(e[i], e[j]) == d)
  }

  // Falling to the same value is a larger drawdown from a higher start exactly when that value
  // is not negative.
  lemma HigherStartFallsMoreIff(a: real, b: real, e: real)
    requires 0.0 < a <= b
    ensures Drawdown(a, e) <= Drawdown(b, e) <==> (e >= 0.0 || a == b)
  {
    var x, y := Drawdown(a, e), Drawdown(b, e);
    assert x * a == a - e && y * b == b - e;
    assert (y - x) * (a * b) == e * (b - a) by {
      assert y * b * a == (b - e) * a;
      assert x * a * b == (a - e) * b;
    }
    assert a * b > 0.0;
    SameSign(y - x, a * b, e, b - a);
  }

  lemma SameSign(d: real, k: real, e: real, w: real)
    requires k > 0.0 && w >= 0.0 && d * k == e * w
    ensures d >= 0.0 <==> (e >= 0.0 || w == 0.0)
  {
    if d >= 0.0 { assert d * k >= 0.0; }
    if d < 0.0 { assert d * k < 0.0; }
    if e >= 0.0 { assert e * w >= 0.0; }
    if e < 0.0 && w > 0.0 { assert e * w < 0.0; }
  }

  // A fall from a positive start is not negative; below a negative peak the quotient is not
  // positive.
  lemma FallSign(p: real, x: real)
    requires p != 0.0 && x <= p
    ensures p > 0.0 ==> Drawdown(p, x) >= 0.0
    ensures p < 0.0 ==> Drawdown(p, x) <= 0.0
  {
    var q := Drawdown(p, x);
    assert q * p == p - x;
  }

  // ----- The largest fall, kept online -----

  function LowerStart(low: real, x: real): real {
    if x > 0.0 && (low == 0.0 || x < low) then x else low
  }

  function Low(initial: real, ts: seq<Tick>): real
    decreases |ts|
  {
    if ts == [] then LowerStart(0.0, initial)
    else LowerStart(Low(initial, ts[..|ts| - 1]), ts[|ts| - 1].equity)
  }

  // The deepest fall to the newest value x: from the peak, or from the lowest start if x is
  // negative.
  function Deepest(peak: real, low: real, x: real): real {
    if x < 0.0 then (if low == 0.0 then 0.0 else Drawdown(low, x))
    else if peak > 0.0 then Drawdown(peak, x) else 0.0
  }

  // The largest fall, from the peak and the lowest start.
  function LargestFall(initial: real, ts: seq<Tick>): real
    decreases |ts|
  {
    if ts == [] then 0.0
    else Larger(Deepest(After(initial, ts).peak, Low(initial, ts), ts[|ts| - 1].equity),
                LargestFall(initial, ts[..|ts| - 1]))
  }

  lemma PeakStep(f: seq<real>, peak: real, x: real)
    requires IsMax(f, peak)
    ensures IsMax(f + [x], Larger(x, peak))
  {
    var e := f + [x];
    assert e[|f|] == x;
    var i :| 0 <= i < |f| && f[i] == peak;
    assert e[i] == peak;
  }

  lemma LowStep(f: seq<real>, low: real, x: real)
    requires IsLow(f, low)
    ensures IsLow(f + [x], LowerStart(low, x))
  {
    var e := f + [x];
    assert e[|f|] == x;
    if low != 0.0 {
      var i :| 0 <= i < |f| && f[i] == low;
      assert e[i] == low;
    }
  }

  lemma {:induction false} PeakAndLow(initial: real, ts: seq<Tick>)
    ensures IsMax(Values(initial, ts), After(initial, ts).peak)
    ensures IsLow(Values(initial, ts), Low(initial, ts))
    decreases |ts|
  {
    if ts == [] {
      assert Values(initial, ts)[0] == initial;
    } else {
      var front, t := ts[..|ts| - 1], ts[|ts| - 1];
      PeakAndLow(initial, front);
      hide IsMax, IsLow, LowerStart, Push, Raised, DailyReturn, Capped;
      PeakStep(Values(initial, front), After(initial, front).peak, t.equity);
      LowStep(Values(initial, front), Low(initial, front), t.equity);
    }
  }

  lemma DeepestFromAbove(e: seq<real>, peak: real, low: real, x: real, i: nat)
    requires IsMax(e, peak) && IsLow(e, low) && i < |e| && e[i] > 0.0
    ensures 0.0 < low <= e[i] <= peak
    ensures Drawdown(e[i], x) <= Deepest(peak, low, x)
  {
    HigherStartFallsMoreIff(e[i], peak, x);
    HigherStartFallsMoreIff(low, e[i], x);
    hide Drawdown;
  }

  lemma DeepestIsAttained(e: seq<real>, peak: real, low: real, x: real)
    requires IsMax(e, peak) && IsLow(e, low) && x <= peak
    ensures Deepest(peak, low, x) >= 0.0
    ensures Deepest(peak, low, x) == 0.0 ||
      exists i :: 0 <= i < |e| && e[i] > 0.0 && Drawdown(e[i], x) == Deepest(peak, low, x)
  {
    if peak > 0.0 { FallSign(peak, x); }
    if low > 0.0 && x < 0.0 { FallSign(low, x); }
    hide Drawdown;
  }

  lemma FallStep(f: seq<real>, d: real, x: real, peak: real, low: real)
    requires IsMaxFall(f, d) && IsMax(f + [x], peak) && IsLow(f + [x], low)
    ensures IsMaxFall(f + [x], Larger(Deepest(peak, low, x), d))
  {
    var e := f + [x];
    var worst := Larger(Deepest(peak, low, x), d);
    assert e[|f|] == x;
    DeepestIsAttained(e, peak, low, x);
    hide Drawdown, Deepest;
    forall i, j | 0 <= i <= j < |e| && e[i] > 0.0
      ensures Drawdown(e[i], e[j]) <= worst
    {
      if j < |f| {
        assert Drawdown(f[i], f[j]) <= d;
      } else {
        DeepestFromAbove(e, peak, low, x, i);
      }
    }
    if worst != 0.0 {
      if worst == d {
        var i, j :| 0 <= i <= j < |f| && f[i] > 0.0 && Drawdown(f[i], f[j]) == d;
        assert e[i] == f[i] && e[j] == f[j];
      } else {
        var i :| 0 <= i < |e| && e[i] > 0.0 && Drawdown(e[i], x) == worst;
        assert Drawdown(e[i], e[|f|]) == worst;
      }
    }
  }

  // Keeping the lowest start as well, one pass finds the largest fall of any series.
  lemma {:induction false} LargestFallIsMaximal(initial: real, ts: seq<Tick>)
    ensures IsMaxFall(Values(initial, ts), LargestFall(initial, ts))
    decreases |ts|
  {
    if ts != [] {
      LargestFallIsMaximal(initial, ts[..|ts| - 1]);
      PeakAndLow(initial, ts);
      hide IsMaxFall, IsMax, IsLow, Low, After, Deepest;
      FallStep(Values(initial, ts[..|ts| - 1]), LargestFall(initial, ts[..|ts| - 1]),
        ts[|ts| - 1].equity, After(initial, ts).peak, Low(initial, ts));
    }
  }

  lemma LargestFallIsUnique(e: seq<real>, c: real, d: real)
    requires IsMaxFall(e, c) && IsMaxFall(e, d)
    ensures c == d
  {
    hide Drawdown;
  }

  // ----- When the tracker has it right -----

  ghost predicate Right(initial: real, ts: seq<Tick>) {
    var m := After(initial, ts).maxDrawdown;
    m.Finite? && IsMaxFall(Values(initial, ts), m.value)
  }

  // What can be tested before an update: a negative value must not meet a zero peak, nor fall
  // further from the lowest start than from the peak and than anything before.
  predicate Harmless(s: State, low: real, x: real) {
    x < 0.0 ==>
      && s.peak != 0.0 && s.maxDrawdown.Finite?
      && (low == 0.0 || Drawdown(low, x) <= Larger(Drawdown(s.peak, x), s.maxDrawdown.value))
  }

  lemma RightIff(initial: real, ts: seq<Tick>)
    ensures Right(initial, ts) <==> After(initial, ts).maxDrawdown == Finite(LargestFall(initial, ts))
  {
    LargestFallIsMaximal(initial, ts);
    var m := After(initial, ts).maxDrawdown;
    hide After, Values, LargestFall, IsMaxFall;
    if Right(initial, ts) {
      LargestFallIsUnique(Values(initial, ts), m.value, LargestFall(initial, ts));
    }
  }

  lemma RaisedIsLargestIff(s: State, low: real, x: real, d: real)
    requires s.maxDrawdown == Finite(d) && d >= 0.0
    requires low >= 0.0 && low <= Larger(s.peak, 0.0) && (s.peak > 0.0 ==> low > 0.0)
    ensures var peak := Larger(x, s.peak);
      Raised(s.maxDrawdown, peak, x) == Finite(Larger(Deepest(peak, LowerStart(low, x), x), d))
      <==> Harmless(s, low, x)
  {
    var peak := Larger(x, s.peak);
    if peak != 0.0 { FallSign(peak, x); }
    if low > 0.0 { HigherStartFallsMoreIff(low, s.peak, x); }
    hide Drawdown;
  }

  // If the online figure is the largest fall before an update, it is so after it exactly when
  // the update is harmless.
  lemma NextUpdateIsRightIff(initial: real, ts: seq<Tick>, t: Tick)
    requires Right(initial, ts)
    ensures Right(initial, ts + [t]) <==> Harmless(After(initial, ts), Low(initial, ts), t.equity)
  {
    var us := ts + [t];
    assert us[..|ts|] == ts;
    RightIff(initial, ts);
    RightIff(initial, us);
    LargestFallIsMaximal(initial, ts);
    PeakAndLow(initial, ts);
    var s, e := After(initial, ts), Values(initial, ts);
    LowIsBelowPeak(e, s.peak, Low(initial, ts));
    assert After(initial, us) == Update(s, t) && Low(initial, us) == LowerStart(Low(initial, ts), t.equity);
    hide Right, After, Low, Raised, Deepest, LowerStart, Harmless, Push, DailyReturn, Capped, Values, IsMax, IsLow;
    RaisedIsLargestIff(s, Low(initial, ts), t.equity, LargestFall(initial, ts));
  }

  lemma LowIsBelowPeak(e: seq<real>, peak: real, low: real)
    requires IsMax(e, peak) && IsLow(e, low)
    ensures 0.0 <= low <= Larger(peak, 0.0) && (peak > 0.0 ==> low > 0.0)
  {
  }

  ghost predicate RightUpTo(initial: real, ts: seq<Tick>, n: nat)
    requires n <= |ts|
  {
    forall k :: 0 <= k <= n ==> Right(initial, ts[..k])
  }

  predicate HarmlessAt(initial: real, ts: seq<Tick>, k: nat)
    requires k < |ts|
  {
    Harmless(After(initial, ts[..k]), Low(initial, ts[..k]), ts[k].equity)
  }

  // Over any series from any start, the online figure is the largest fall at every point
  // exactly when every update is harmless.
  lemma {:induction false} DrawdownStaysRightIff(initial: real, ts: seq<Tick>, n: nat)
    requires n <= |ts|
    ensures RightUpTo(initial, ts, n) <==> forall k :: 0 <= k < n ==> HarmlessAt(initial, ts, k)
    decreases n
  {
    hide Right, Harmless, After, Low;
    if n == 0 {
      RightAtStart(initial);
      assert ts[..0] == [];
    } else {
      DrawdownStaysRightIff(initial, ts, n - 1);
      assert ts[..n] == ts[..n - 1] + [ts[n - 1]];
      if RightUpTo(initial, ts, n - 1) {
        NextUpdateIsRightIff(initial, ts[..n - 1], ts[n - 1]);
        assert Right(initial, ts[..n]) <==> HarmlessAt(initial, ts, n - 1);
      } else {
        assert !RightUpTo(initial, ts, n);
        assert exists k :: 0 <= k < n - 1 && !HarmlessAt(initial, ts, k);
      }
    }
  }

  lemma RightAtStart(initial: real)
    ensures Right(initial, [])
  {
  }

  // Values that are not negative are harmless, whatever the start: the peak is the maximum and
  // the online drawdown the largest fall from any positive value to a later one.
  lemma OnlineDrawdownIsMaximal(initial: real, ts: seq<Tick>)
    requires forall k :: 0 <= k < |ts| ==> ts[k].equity >= 0.0
    ensures IsMax(Values(initial, ts), After(initial, ts).peak) && Right(initial, ts)
  {
    PeakAndLow(initial, ts);
    DrawdownStaysRightIff(initial, ts, |ts|);
    hide Right, After, Low, IsMax;
    assert ts[..|ts|] == ts;
  }

  // ----- The figure at the end of a series -----

  // The fall that update k adds to the candidates.
  function FallAt(initial: real, ts: seq<Tick>, k: nat): real
    requires k < |ts|
  {
    Deepest(After(initial, ts[..k + 1]).peak, Low(initial, ts[..k + 1]), ts[k].equity)
  }

  lemma {:induction false} LargestFallAtMostIff(initial: real, ts: seq<Tick>, d: real, n: nat)
    requires d >= 0.0 && n <= |ts|
    ensures LargestFall(initial, ts[..n]) <= d <==> forall k :: 0 <= k < n ==> FallAt(initial, ts, k) <= d
    decreases n
  {
    hide LargestFall, FallAt;
    if n == 0 {
      assert ts[..0] == [];
      FiguresAtStart(initial);
    } else {
      LargestFallAtMostIff(initial, ts, d, n - 1);
      OneMoreFall(initial, ts, n);
    }
  }

  lemma OneMoreUpdate(initial: real, ts: seq<Tick>, n: nat)
    requires 0 < n <= |ts|
    ensures ts[..n][..n - 1] == ts[..n - 1] && ts[..n][n - 1] == ts[n - 1]
    ensures var s, u := After(initial, ts[..n - 1]), After(initial, ts[..n]);
      && u.peak == Larger(ts[n - 1].equity, s.peak)
      && u.maxDrawdown == Raised(s.maxDrawdown, u.peak, ts[n - 1].equity)
  {
    hide Raised, Push, Capped, DailyReturn;
    assert ts[..n][..n - 1] == ts[..n - 1];
  }

  lemma OneMoreFall(initial: real, ts: seq<Tick>, n: nat)
    requires 0 < n <= |ts|
    ensures LargestFall(initial, ts[..n]) == Larger(FallAt(initial, ts, n - 1), LargestFall(initial, ts[..n - 1]))
  {
    hide Deepest, After, Low;
    assert ts[..n][..n - 1] == ts[..n - 1];
  }

  // The online figure never exceeds the largest fall and misses none to a value that is not
  // negative.
  lemma {:induction false} OnlineIsBelow(initial: real, ts: seq<Tick>, n: nat)
    requires n <= |ts| && After(initial, ts[..n]).maxDrawdown.Finite?
    ensures var d := After(initial, ts[..n]).maxDrawdown.value;
      && 0.0 <= d <= LargestFall(initial, ts[..n])
      && forall k :: 0 <= k < n && ts[k].equity >= 0.0 ==> FallAt(initial, ts, k) <= d
    decreases n
  {
    hide Deepest, Raised, After, Low, Values, IsMax, IsLow, LargestFall;
    if n > 0 {
      OneMoreUpdate(initial, ts, n);
      OneMoreFall(initial, ts, n);
      var s, u := After(initial, ts[..n - 1]), After(initial, ts[..n]);
      RaisedIsInfiniteIff(s.maxDrawdown, s.peak, ts[n - 1].equity);
      OnlineIsBelow(initial, ts, n - 1);
      PeakAndLow(initial, ts[..n]);
      LowIsBelowPeak(Values(initial, ts[..n]), u.peak, Low(initial, ts[..n]));
      RaisedIsBelow(s.maxDrawdown, u.peak, Low(initial, ts[..n]), ts[n - 1].equity);
    } else {
      assert ts[..0] == [];
      FiguresAtStart(initial);
    }
  }

  lemma FiguresAtStart(initial: real)
    ensures After(initial, []).maxDrawdown == Finite(0.0) && LargestFall(initial, []) == 0.0
  {
  }

  lemma RaisedIsInfiniteIff(m: Figure, peak: real, x: real)
    ensures Raised(m, Larger(x, peak), x).Infinite? <==> m.Infinite? || (x < 0.0 && peak == 0.0)
  {
    hide Drawdown;
  }

  lemma RaisedIsBelow(m: Figure, peak: real, low: real, x: real)
    requires m.Finite? && m.value >= 0.0 && Raised(m, peak, x).Finite? && x <= peak
    requires 0.0 <= low <= Larger(peak, 0.0) && (peak > 0.0 ==> low > 0.0)
    ensures var d := Raised(m, peak, x).value;
      m.value <= d <= Larger(Deepest(peak, low, x), m.value) && (x >= 0.0 ==> Deepest(peak, low, x) <= d)
  {
    if peak != 0.0 { FallSign(peak, x); }
    if low > 0.0 { HigherStartFallsMoreIff(low, peak, x); }
    hide Drawdown;
  }

  predicate MeetsZeroPeak(initial: real, ts: seq<Tick>, k: nat)
    requires k < |ts|
  {
    ts[k].equity < 0.0 && After(initial, ts[..k]).peak == 0.0
  }

  // The figure is infinite exactly when a negative value met a zero peak.
  lemma {:induction false} InfiniteIff(initial: real, ts: seq<Tick>, n: nat)
    requires n <= |ts|
    ensures After(initial, ts[..n]).maxDrawdown.Infinite? <==> exists k :: 0 <= k < n && MeetsZeroPeak(initial, ts, k)
    decreases n
  {
    hide *;
    if n == 0 {
      assert ts[..0] == [];
      FiguresAtStart(initial);
    } else {
      InfiniteIff(initial, ts, n - 1);
      OneMoreUpdate(initial, ts, n);
      var s := After(initial, ts[..n - 1]);
      RaisedIsInfiniteIff(s.maxDrawdown, s.peak, ts[n - 1].equity);
      MeetsZeroPeakIff(initial, ts, n - 1);
    }
  }

  lemma MeetsZeroPeakIff(initial: real, ts: seq<Tick>, k: nat)
    requires k < |ts|
    ensures MeetsZeroPeak(initial, ts, k) <==> ts[k].equity < 0.0 && After(initial, ts[..k]).peak == 0.0
  {
  }

  // At the end of any series the figure is the largest fall exactly when it is finite and no
  // negative value fell further from the lowest start before it than the figure says.
  lemma DrawdownIsRightIff(initial: real, ts: seq<Tick>)
    ensures var m := After(initial, ts).maxDrawdown;
      Right(initial, ts) <==>
        m.Finite? && forall k :: 0 <= k < |ts| && ts[k].equity < 0.0 ==> FallAt(initial, ts, k) <= m.value
  {
    assert ts[..|ts|] == ts;
    if After(initial, ts).maxDrawdown.Finite? {
      RightIff(initial, ts);
      OnlineIsBelow(initial, ts, |ts|);
      LargestFallAtMostIff(initial, ts, After(initial, ts).maxDrawdown.value, |ts|);
      hide FallAt, After, LargestFall, Right;
    }
  }

  // With a negative value the online figure can miss the worst pair.
  lemma NegativeValueBreaksIt()
    ensures var ts := [Tick(2.0, 1, 1), Tick(-1.0, 2, 1)];
      After(1.0, ts).maxDrawdown == Finite(1.5) && Drawdown(1.0, -1.0) == 2.0
  {
    var ts := [Tick(2.0, 1, 1), Tick(-1.0, 2, 1)];
    assert ts[..1][..0] == [] && ts[..1] == [ts[0]];
    var s0 := After(1.0, []);
    var s1 := Update(s0, ts[0]);
    assert After(1.0, ts[..1]) == s1;
    assert s1.peak == 2.0 && s1.maxDrawdown == Finite(0.0);
    assert After(1.0, ts) == Update(s1, ts[1]);
  }

  // ----- The window of daily returns -----

  // Every daily return recorded so far.
  function Returns(initial: real, ts: seq<Tick>): seq<real>
    decreases |ts|
  {
    if ts == [] then []
    else
      var s, t := After(initial, ts[..|ts| - 1]), ts[|ts| - 1];
      var rs := Returns(initial, ts[..|ts| - 1]);
      if NewDay(s, t) && s.dayStart > 0.0 then rs + [DailyReturn(s.dayStart, t.equity)] else rs
  }

  function Min(a: nat, b: nat): nat {
    if a < b then a else b
  }

  // The most recent returns, at most a window of them.
  function Recent(rs: seq<real>): seq<real> {
    rs[|rs| - Min(|rs|, WINDOW)..]
  }

  // Return number k, if recent, is in cell k modulo the window.
  ghost predicate Circular(w: Ring, rs: seq<real>) {
    && |w.cells| == WINDOW && w.idx == |rs| && w.count == Min(|rs|, WINDOW)
    && forall k :: |rs| - w.count <= k < |rs| ==> w.cells[k % WINDOW] == rs[k]
  }

  lemma PushKeepsCircular(w: Ring, rs: seq<real>, r: real)
    requires Circular(w, rs)
    ensures Circular(Push(w, r), rs + [r])
  {
    var v, us := Push(w, r), rs + [r];
    forall k | |us| - v.count <= k < |us|
      ensures v.cells[k % WINDOW] == us[k]
    {
      if k < |rs| { CellsDiffer(k, |rs|); }
    }
  }

  lemma {:induction false} WindowIsCircular(initial: real, ts: seq<Tick>)
    ensures Circular(After(initial, ts).ring, Returns(initial, ts))
    decreases |ts|
  {
    if ts != [] {
      var front, t := ts[..|ts| - 1], ts[|ts| - 1];
      var s := After(initial, front);
      assert After(initial, ts) == Update(s, t);
      WindowIsCircular(initial, front);
      hide Circular, After, Push, DailyReturn, Drawdown, Capped, Records;
      if NewDay(s, t) && s.dayStart > 0.0 {
        PushKeepsCircular(s.ring, Returns(initial, front), DailyReturn(s.dayStart, t.equity));
      }
    }
  }

  lemma CellsDiffer(k: nat, n: nat)
    requires k < n < k + WINDOW
    ensures k % WINDOW != n % WINDOW
  {
  }

  // Number of the newest returns that start the buffer over.
  function Wrapped(n: nat): (r: nat)
    ensures r <= n && r < WINDOW
  {
    if n < WINDOW then 0 else n % WINDOW
  }

  lemma CellAt(w: Ring, rs: seq<real>, i: nat)
    requires Circular(w, rs) && i < w.count
    ensures var n, r := |rs|, Wrapped(|rs|);
      w.cells[i] == if n < WINDOW then rs[i] else if i < r then rs[n - r + i] else rs[n - r - WINDOW + i]
  {
    var n, r := |rs|, Wrapped(|rs|);
    if n < WINDOW {
      assert w.cells[i % WINDOW] == rs[i];
    } else if i < r {
      CellOf(n - r, i);
      assert w.cells[(n - r + i) % WINDOW] == rs[n - r + i];
    } else {
      CellOf(n - r - WINDOW, i);
      assert w.cells[(n - r - WINDOW + i) % WINDOW] == rs[n - r - WINDOW + i];
    }
  }

  // The cells in use are the recent returns, rotated.
  lemma WindowIsRotation(w: Ring, rs: seq<real>) returns (older: seq<real>, newer: seq<real>)
    requires Circular(w, rs)
    ensures w.cells[..w.count] == newer + older && Recent(rs) == older + newer
  {
    var n, r := |rs|, Wrapped(|rs|);
    older := if n < WINDOW then rs else rs[n - WINDOW..n - r];
    newer := rs[n - r..];
    forall i | 0 <= i < w.count
      ensures w.cells[i] == (newer + older)[i]
    {
      CellAt(w, rs, i);
      hide Wrapped, Circular;
    }
    hide Wrapped;
    assert Recent(rs) == older + newer;
    assert w.cells[..w.count] == newer + older;
  }

  lemma CellOf(base: nat, i: nat)
    requires base % WINDOW == 0 && i < WINDOW
    ensures (base + i) % WINDOW == i
  {
  }

  // The first returnCount cells hold, in some order, exactly the recent returns.
  lemma WindowHoldsRecentReturns(w: Ring, rs: seq<real>)
    requires Circular(w, rs)
    ensures multiset(w.cells[..w.count]) == multiset(Recent(rs))
  {
    var older, newer := WindowIsRotation(w, rs);
  }

  // ----- Moments -----

  function Total(v: seq<real>): real
    decreases |v|
  {
    if v == [] then 0.0 else Total(v[..|v| - 1]) + v[|v| - 1]
  }

  function Square(x: real): real {
    x * x
  }

  function Squares(v: seq<real>, mean: real): real
    decreases |v|
  {
    if v == [] then 0.0 else Squares(v[..|v| - 1], mean) + Square(v[|v| - 1] - mean)
  }

  function Mean(v: seq<real>): real
    requires v != []
  {
    Total(v) / (|v| as real)
  }

  function SampleVariance(v: seq<real>): real
    requires |v| >= 2
  {
    Squares(v, Mean(v)) / ((|v| - 1) as real)
  }

  lemma {:induction false} TotalOfConcat(a: seq<real>, b: seq<real>)
    ensures Total(a + b) == Total(a) + Total(b)
    decreases |b|
  {
    if b == [] {
      assert a + b == a;
    } else {
      assert (a + b)[..|a + b| - 1] == a + b[..|b| - 1];
      TotalOfConcat(a, b[..|b| - 1]);
    }
  }

  lemma {:induction false} SquaresOfConcat(a: seq<real>, b: seq<real>, mean: real)
    ensures Squares(a + b, mean) == Squares(a, mean) + Squares(b, mean)
    decreases |b|
  {
    hide Square;
    if b == [] {
      assert a + b == a;
    } else {
      assert (a + b)[..|a + b| - 1] == a + b[..|b| - 1];
      SquaresOfConcat(a, b[..|b| - 1], mean);
    }
  }

  // Sums over the cells in use equal sums over the recent returns in order.
  lemma WindowSums(w: Ring, rs: seq<real>, mean: real)
    requires Circular(w, rs)
    ensures |w.cells[..w.count]| == |Recent(rs)|
    ensures Total(w.cells[..w.count]) == Total(Recent(rs))
    ensures Squares(w.cells[..w.count], mean) == Squares(Recent(rs), mean)
  {
    var older, newer := WindowIsRotation(w, rs);
    hide Circular, Recent;
    TotalOfConcat(older, newer);
    TotalOfConcat(newer, older);
    SquaresOfConcat(older, newer, mean);
    SquaresOfConcat(newer, older, mean);
  }

  // ----- History -----

  // Every point recorded, without the cap.
  function Points(initial: real, ts: seq<Tick>): seq<Point>
    decreases |ts|
  {
    if ts == [] then []
    else
      var s, t := After(initial, ts[..|ts| - 1]), ts[|ts| - 1];
      var ps := Points(initial, ts[..|ts| - 1]);
      if Records(s.history, t.now) then ps + [Point(t.now, t.equity, t.equity - s.dayStart)] else ps
  }

  predicate Ascending(ps: seq<Point>) {
    forall i, j :: 0 <= i < j < |ps| ==> ps[i].time < ps[j].time
  }

  lemma AscendingStep(ps: seq<Point>, p: Point)
    requires Ascending(ps) && Records(ps, p.time)
    ensures Ascending(ps + [p])
  {
  }

  lemma CapOnceMore(ps: seq<Point>, p: Point)
    ensures Capped(Capped(ps) + [p]) == Capped(ps + [p])
    ensures Records(Capped(ps), p.time) == Records(ps, p.time)
  {
  }

  lemma AfterStep(initial: real, ts: seq<Tick>, t: Tick)
    ensures After(initial, ts + [t]) == Update(After(initial, ts), t)
  {
    hide Update;
    assert (ts + [t])[..|ts|] == ts && (ts + [t])[|ts|] == t;
  }

  lemma PointsStep(initial: real, ts: seq<Tick>, t: Tick)
    ensures var s := After(initial, ts);
      Points(initial, ts + [t]) ==
        if Records(s.history, t.now) then Points(initial, ts) + [Point(t.now, t.equity, t.equity - s.dayStart)]
        else Points(initial, ts)
  {
    hide After, Records;
    assert (ts + [t])[..|ts|] == ts && (ts + [t])[|ts|] == t;
  }

  lemma HistoryStep(initial: real, ts: seq<Tick>, t: Tick)
    ensures var s := After(initial, ts);
      After(initial, ts + [t]).history ==
        if Records(s.history, t.now) then Capped(s.history + [Point(t.now, t.equity, t.equity - s.dayStart)])
        else s.history
  {
    hide After, Records, Capped, Push, Drawdown, DailyReturn, Larger;
    AfterStep(initial, ts, t);
  }

  ghost predicate HistoryOk(initial: real, ts: seq<Tick>)
  {
    After(initial, ts).history == Capped(Points(initial, ts)) && Ascending(Points(initial, ts))
  }

  lemma HistoryStarts(initial: real)
    ensures HistoryOk(initial, [])
  {
    hide Update;
  }

  lemma HistoryGoesOn(initial: real, ts: seq<Tick>, t: Tick)
    requires HistoryOk(initial, ts)
    ensures HistoryOk(initial, ts + [t])
  {
    hide After, Points, Capped, Records, Ascending;
    HistoryStep(initial, ts, t);
    PointsStep(initial, ts, t);
    var ps := Points(initial, ts);
    var p := Point(t.now, t.equity, t.equity - After(initial, ts).dayStart);
    CapOnceMore(ps, p);
    if Records(ps, t.now) { AscendingStep(ps, p); }
  }

  // The history is the capped tail of all recorded points, whose times strictly increase
  // whatever the clock does.
  lemma {:induction false} HistoryIsCappedTail(initial: real, ts: seq<Tick>)
    ensures HistoryOk(initial, ts)
    decreases |ts|
  {
    hide HistoryOk;
    if ts == [] {
      HistoryStarts(initial);
    } else {
      var front, t := ts[..|ts| - 1], ts[|ts| - 1];
      assert ts == front + [t];
      HistoryIsCappedTail(initial, front);
      HistoryGoesOn(initial, front, t);
    }
  }

  // ----- The tracker object -----

  class Tracker {
    const dailyReturns: array<real>
    var returnIdx: nat
    var returnCount: nat
    var peakEquity: real
    var currentEquity: real
    var maxDrawdown: Figure
    var pnlHistory: seq<Point>
    var dayStartEquity: real
    var lastResetDay: nat

    ghost function Buffer(): Ring
      reads this, dailyReturns
    {
      Ring(dailyReturns[..], returnIdx, returnCount)
    }

    ghost function View(): State
      reads this, dailyReturns
    {
      State(peakEquity, currentEquity, maxDrawdown, Buffer(), pnlHistory, dayStartEquity, lastResetDay)
    }

    constructor (initialEquity: real)
      ensures View() == Initial(initialEquity) && fresh(dailyReturns)
    {
      dailyReturns := new real[WINDOW](_ => 0.0);
      returnIdx, returnCount := 0, 0;
      peakEquity, currentEquity, maxDrawdown := initialEquity, initialEquity, Finite(0.0);
      pnlHistory := [];
      dayStartEquity, lastResetDay := initialEquity, 0;
      new;
      assert dailyReturns[..] == Initial(initialEquity).ring.cells;
    }

    method UpdateEquity(equity: real, now: int, today: Day)
      requires dailyReturns.Length == WINDOW
      modifies this, dailyReturns
      ensures View() == Update(old(View()), Tick(equity, now, today))
    {
      hide Drawdown, DailyReturn, Push, Capped, Raised;
      currentEquity := equity;
      if equity > peakEquity {
        peakEquity := equity;
      }
      RecordFall(equity);
      RecordPoint(equity, now);
      if today != lastResetDay && lastResetDay != 0 {
        if dayStartEquity > 0.0 {
          RecordReturn(DailyReturn(dayStartEquity, equity));
        }
        dayStartEquity := equity;
      }
      if lastResetDay == 0 {
        dayStartEquity := equity;
      }
      lastResetDay := today;
    }

    method RecordFall(equity: real)
      modifies this`maxDrawdown
      ensures maxDrawdown == Raised(old(maxDrawdown), peakEquity, equity)
    {
      if peakEquity == 0.0 {
        if equity < 0.0 {
          maxDrawdown := Infinite;
        }
      } else {
        var dd := Drawdown(peakEquity, equity);
        if maxDrawdown.Finite? && dd > maxDrawdown.value {
          maxDrawdown := Finite(dd);
        }
      }
    }

    method RecordPoint(equity: real, now: int)
      modifies this`pnlHistory
      ensures pnlHistory ==
        if Records(old(pnlHistory), now) then Capped(old(pnlHistory) + [Point(now, equity, equity - dayStartEquity)])
        else old(pnlHistory)
    {
      if |pnlHistory| == 0 || pnlHistory[|pnlHistory| - 1].time < now {
        pnlHistory := pnlHistory + [Point(now, equity, equity - dayStartEquity)];
        if |pnlHistory| > HISTORY_CAP {
          pnlHistory := pnlHistory[|pnlHistory| - HISTORY_CAP..];
        }
      }
    }

    method RecordReturn(r: real)
      requires dailyReturns.Length == WINDOW
      modifies this`returnIdx, this`returnCount, dailyReturns
      ensures Buffer() == Push(old(Buffer()), r)
    {
      dailyReturns[returnIdx % WINDOW] := r;
      returnIdx := returnIdx + 1;
      if returnCount < WINDOW {
        returnCount := returnCount + 1;
      }
    }

    // The mean and sample variance that the Sharpe ratio starts from; with fewer than two
    // returns there is none.
    method Moments(ghost rs: seq<real>) returns (ok: bool, mean: real, variance: real)
      requires Circular(Buffer(), rs)
      ensures ok <==> |rs| >= 2
      ensures ok ==> mean == Mean(Recent(rs)) && variance == SampleVariance(Recent(rs))
    {
      mean, variance := 0.0, 0.0;
      if returnCount < 2 { return false, mean, variance; }
      WindowSums(Buffer(), rs, Mean(Recent(rs)));
      ghost var cells := dailyReturns[..returnCount];
      assert Buffer().cells[..returnCount] == cells;
      hide Circular, Recent;
      var sum := 0.0;
      for i := 0 to returnCount
        invariant sum == Total(cells[..i])
      {
        assert cells[..i + 1][..i] == cells[..i];
        sum := sum + dailyReturns[i];
      }
      assert cells[..returnCount] == cells;
      mean := sum / (returnCount as real);
      var total := SquaredDeviations(mean);
      variance := total / ((returnCount - 1) as real);
      return true, mean, variance;
    }

    method SquaredDeviations(mean: real) returns (total: real)
      requires returnCount <= dailyReturns.Length
      ensures total == Squares(dailyReturns[..returnCount], mean)
    {
      ghost var cells := dailyReturns[..returnCount];
      total := 0.0;
      for i := 0 to returnCount
        invariant total == Squares(cells[..i], mean)
      {
        assert cells[..i + 1][..i] == cells[..i];
        var diff := dailyReturns[i] - mean;
        total := total + diff * diff;
      }
      assert cells[..returnCount] == cells;
    }
  }
}
