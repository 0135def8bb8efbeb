/**
 Performance figures of a backtest: maximum drawdown, trade statistics and the Newton square root
 behind the Sharpe and Sortino ratios.  Decimals are exact reals here.
 */
module Metrics {
  import opened Options
  import opened Reals
  import Backtest

  const DECIMAL_MAX := 79228162514264337593543950335.0
  const DECIMAL_MIN := -79228162514264337593543950335.0

  // ---------------------------------------------------------------------------
  // Square root
  // ---------------------------------------------------------------------------

  const TOLERANCE := 0.0000000001
  const ROUNDS: nat := 32

  function Improve(s: real, x: real): (nx: real)
    requires s > 0.0 && x > 0.0
    ensures nx > 0.0
  {
    assert s / x > 0.0;
    (x + s / x) / 2.0
  }

  /** The guess before round `k`. */
  function Guess(s: real, k: nat): (x: real)
    requires s > 0.0
    ensures x > 0.0
  {
    if k == 0 then s else Improve(s, Guess(s, k - 1))
  }

  /** How far round `k` moves the guess. */
  function Move(s: real, k: nat): real
    requires s > 0.0
  {
    Abs(Guess(s, k + 1) - Guess(s, k))
  }

  /** The square of the new guess exceeds `s` by the square of the move. */
  lemma ExcessIsMoveSquared(s: real, x: real)
    requires s > 0.0 && x > 0.0
    ensures var nx := Improve(s, x); Times(nx, nx) - s == Times(nx - x, nx - x)
  {
    var q, nx := s / x, Improve(s, x);
    assert Times(q, x) == s;
  }

  lemma SquareNonNegative(x: real)
    ensures Times(x, x) >= 0.0
  {
  }

  lemma SquaresOrder(a: real, b: real)
    requires a > 0.0 && b > 0.0
    ensures Times(a, a) >= Times(b, b) <==> a >= b
  {
    hide Times;
    TimesLess(a, b, a);
    TimesLess(b, b, a);
    TimesLess(a, a, b);
    TimesLess(b, a, b);
    Commutes(a, b);
  }

  lemma Commutes(a: real, b: real)
    ensures Times(a, b) == Times(b, a)
  {
  }

  /** Every guess after the first round lies on or above the root, and no later round raises it. */
  lemma GuessesDescend(s: real, k: nat)
    requires s > 0.0 && k > 0
    ensures Times(Guess(s, k), Guess(s, k)) >= s
    ensures Guess(s, k + 1) <= Guess(s, k)
  {
    var x := Guess(s, k);
    hide Times;
    ExcessIsMoveSquared(s, Guess(s, k - 1));
    SquareNonNegative(x - Guess(s, k - 1));
    var q := s / x;
    assert q <= x by {
      DivTimes(s, x);
      if q > x { TimesLess(x, x, q); }
    }
  }

  lemma DivTimes(s: real, x: real)
    requires x != 0.0
    ensures Times(x, s / x) == s
  {
  }

  /** The error against a root at least halves in every round but the first. */
  lemma ErrorHalves(s: real, rho: real, x: real)
    requires rho > 0.0 && Times(rho, rho) == s && x >= rho
    ensures s > 0.0 && 0.0 <= Improve(s, x) - rho <= (x - rho) / 2.0
  {
    hide Times;
    TimesPositive(rho, rho);
    var nx, q := Improve(s, x), s / x;
    ExcessIsMoveSquared(s, x);
    SquareNonNegative(nx - x);
    SquaresOrder(nx, rho);
    assert q <= rho by {
      DivTimes(s, x);
      if q > rho {
        TimesLess(x, rho, q);
        TimesMono(rho, rho, x);
        Commutes(rho, x);
      }
    }
  }

  function Pow2(k: nat): (p: real)
    ensures p >= 1.0
  {
    if k == 0 then 1.0 else 2.0 * Pow2(k - 1)
  }

  lemma {:induction false} ErrorAfter(s: real, rho: real, k: nat)
    requires rho > 0.0 && Times(rho, rho) == s && s > 0.0 && k > 0
    ensures 0.0 <= Guess(s, k) - rho <= (s + 1.0) / Pow2(k)
    decreases k
  {
    hide Times;
    if k == 1 {
      ExcessIsMoveSquared(s, s);
      SquareNonNegative(Guess(s, 1) - s);
      SquaresOrder(Guess(s, 1), rho);
      assert Guess(s, 0) == s && s / s == 1.0;
      assert Pow2(0) == 1.0;
    } else {
      ErrorAfter(s, rho, k - 1);
      ErrorHalves(s, rho, Guess(s, k - 1));
      HalfOf(s + 1.0, Pow2(k - 1));
    }
  }

  lemma HalfOf(a: real, p: real)
    requires p > 0.0
    ensures a / (2.0 * p) == a / p / 2.0
  {
  }

  /** The loop stopped early after round `k`. */
  predicate StoppedAfter(s: real, k: nat, r: real)
    requires s > 0.0
  {
    k < ROUNDS && r == Guess(s, k + 1) && Move(s, k) < TOLERANCE && forall j: nat :: j < k ==> Move(s, j) >= TOLERANCE
  }

  predicate RanOut(s: real, r: real)
    requires s > 0.0
  {
    r == Guess(s, ROUNDS) && forall j: nat :: j < ROUNDS ==> Move(s, j) >= TOLERANCE
  }

  method Sqrt(s: real) returns (r: Option<real>)
    ensures r.None? <==> s < 0.0
    ensures s == 0.0 ==> r == Some(0.0)
    ensures s > 0.0 ==> r.value > 0.0 && ((exists k :: StoppedAfter(s, k, r.value)) || RanOut(s, r.value))
    ensures s > 0.0 && !RanOut(s, r.value) ==> 0.0 <= Times(r.value, r.value) - s < 0.00000000000000000001
  {
    hide Times;
    if s < 0.0 {
      return None;
    }
    if s == 0.0 {
      return Some(0.0);
    }
    var x := s;
    for i := 0 to ROUNDS
      invariant x == Guess(s, i)
      invariant forall j: nat :: j < i ==> Move(s, j) >= TOLERANCE
    {
      var nx := (x + s / x) / 2.0;
      assert nx == Guess(s, i + 1);
      if Abs(nx - x) < TOLERANCE {
        assert StoppedAfter(s, i, nx);
        ExcessIsMoveSquared(s, x);
        SmallSquare(nx - x);
        return Some(nx);
      }
      x := nx;
    }
    return Some(x);
  }

  lemma SmallSquare(d: real)
    requires Abs(d) < TOLERANCE
    ensures 0.0 <= Times(d, d) < 0.00000000000000000001
  {
    var a := Abs(d);
    assert Times(d, d) == Times(a, a);
    if a > 0.0 {
      TimesLess(a, a, TOLERANCE);
      TimesLess(TOLERANCE, a, TOLERANCE);
      assert Times(a, TOLERANCE) == Times(TOLERANCE, a);
    }
  }

  /** Whatever `sqrt` returns is at or above the root, by less than the tolerance when it stopped early and
      otherwise by at most `(s + 1) / 2^32`. */
  lemma SqrtAccuracy(s: real, r: real, rho: real)
    requires rho > 0.0 && Times(rho, rho) == s && s > 0.0
    requires (exists k :: StoppedAfter(s, k, r)) || RanOut(s, r)
    ensures 0.0 <= r - rho
    ensures r - rho < TOLERANCE || (RanOut(s, r) && r - rho <= (s + 1.0) / 4294967296.0)
  {
    hide Times, Guess;
    if k :| StoppedAfter(s, k, r) {
      EarlyStopIsClose(s, rho, k);
    } else {
      ErrorAfter(s, rho, ROUNDS);
      TwoTo32();
    }
  }

  lemma EarlyStopIsClose(s: real, rho: real, k: nat)
    requires rho > 0.0 && Times(rho, rho) == s && s > 0.0 && Move(s, k) < TOLERANCE
    ensures 0.0 <= Guess(s, k + 1) - rho < TOLERANCE
  {
    hide Times;
    var x, nx := Guess(s, k), Guess(s, k + 1);
    ExcessIsMoveSquared(s, x);
    SquareNonNegative(nx - x);
    SquaresOrder(nx, rho);
    if nx - rho >= TOLERANCE {
      TinySquare();
      DifferenceOfSquares(nx, rho);
      SquaresOrder(nx - rho, TOLERANCE);
      SmallSquare(nx - x);
    }
  }

  lemma TinySquare()
    ensures Times(TOLERANCE, TOLERANCE) == 0.00000000000000000001
  {
  }

  lemma DifferenceOfSquares(a: real, b: real)
    requires a >= b > 0.0
    ensures Times(a, a) - Times(b, b) >= Times(a - b, a - b)
  {
    TimesMono(a - b, 0.0, 2.0 * b);
    assert Times(a, a) - Times(b, b) == Times(a - b, a - b) + Times(a - b, 2.0 * b);
  }

  lemma TwoTo32()
    ensures Pow2(32) == 4294967296.0
  {
    assert Pow2(8) == 256.0;
    assert Pow2(16) == 65536.0;
    assert Pow2(24) == 16777216.0;
  }

  // ---------------------------------------------------------------------------
  // Maximum drawdown
  // ---------------------------------------------------------------------------

  function Drop(high: real, low: real): real
    requires high > 0.0
  {
    (low - high) / high
  }

  /** The highest equity among the first `n` points. */
  function Peak(curve: seq<real>, n: nat): real
    requires n <= |curve|
  {
    if n == 0 then DECIMAL_MIN else Max(Peak(curve, n - 1), curve[n - 1])
  }

  lemma {:induction false} PeakIsHighest(curve: seq<real>, n: nat)
    requires n <= |curve|
    ensures forall i :: 0 <= i < n ==> curve[i] <= Peak(curve, n)
    ensures Peak(curve, n) > 0.0 ==> exists i :: 0 <= i < n && curve[i] == Peak(curve, n)
  {
    if n > 0 {
      PeakIsHighest(curve, n - 1);
    }
  }

  predicate NonNegative(curve: seq<real>) { forall i :: 0 <= i < |curve| ==> curve[i] >= 0.0 }

  /** `dd` is the least fall from the running peak within the first `n` points, and at most zero. */
  predicate LeastFromPeak(curve: seq<real>, n: nat, dd: real)
    requires n <= |curve|
  {
    && dd <= 0.0
    && (forall j :: 0 <= j < n && Peak(curve, j + 1) > 0.0 ==> dd <= Drop(Peak(curve, j + 1), curve[j]))
    && (dd == 0.0 || exists j :: 0 <= j < n && Peak(curve, j + 1) > 0.0 && dd == Drop(Peak(curve, j + 1), curve[j]))
  }

  /** `dd` is the least relative change from any positive point to itself or a later one; zero without any. */
  predicate LeastOverPairs(curve: seq<real>, dd: real) {
    && (forall i, j :: 0 <= i <= j < |curve| && curve[i] > 0.0 ==> dd <= Drop(curve[i], curve[j]))
    && (dd == 0.0 || exists i, j :: 0 <= i <= j < |curve| && curve[i] > 0.0 && dd == Drop(curve[i], curve[j]))
    && dd <= 0.0
  }

  lemma NoDrawdownYet(curve: seq<real>)
    ensures LeastFromPeak(curve, 0, 0.0)
  {
  }

  lemma PointExtends(curve: seq<real>, n: nat, dd: real)
    requires n < |curve| && LeastFromPeak(curve, n, dd)
    ensures var peak := Peak(curve, n + 1);
            LeastFromPeak(curve, n + 1, if peak > 0.0 && Drop(peak, curve[n]) < dd then Drop(peak, curve[n]) else dd)
  {
    hide Drop, Peak;
  }

  lemma HigherFallsFurther(a: real, b: real, c: real)
    requires a >= b > 0.0 && c >= 0.0
    ensures -1.0 <= Drop(a, c) <= Drop(b, c)
  {
    Quotient(c - a, a, -1.0);
    Quotient(c - a, a, Drop(b, c));
    var d := Drop(b, c);
    assert d * b == c - b;
    Quotient(c - b, b, -1.0);
    TimesMono(d + 1.0, b, a);
  }

  /** The lowest positive equity among the first `n` points. */
  function Trough(curve: seq<real>, n: nat): (t: Option<real>)
    requires n <= |curve|
    ensures t.Some? ==> t.value > 0.0
  {
    if n == 0 then None
    else
      var t, x := Trough(curve, n - 1), curve[n - 1];
      if x > 0.0 && (t.None? || x < t.value) then Some(x) else t
  }

  lemma {:induction false} TroughIsLowest(curve: seq<real>, n: nat)
    requires n <= |curve|
    ensures forall i :: 0 <= i < n && curve[i] > 0.0 ==> Trough(curve, n).Some? && Trough(curve, n).value <= curve[i]
    ensures Trough(curve, n).Some? ==> exists i :: 0 <= i < n && curve[i] > 0.0 && curve[i] == Trough(curve, n).value
  {
    if n > 0 {
      TroughIsLowest(curve, n - 1);
    }
  }

  /** Some fall from a running peak is at least as deep as `d`. */
  predicate FallsTo(curve: seq<real>, d: real) {
    exists k :: 0 <= k < |curve| && Peak(curve, k + 1) > 0.0 && Drop(Peak(curve, k + 1), curve[k]) <= d
  }

  /** Every negative point, measured from the lowest positive equity before it, is matched by a fall from a
      running peak. */
  predicate LossesCovered(curve: seq<real>) {
    forall j :: 0 <= j < |curve| && curve[j] < 0.0 && Trough(curve, j + 1).Some? ==>
      FallsTo(curve, Drop(Trough(curve, j + 1).value, curve[j]))
  }

  lemma LowerFallsFurtherBelowZero(a: real, b: real, c: real)
    requires a >= b > 0.0 && c < 0.0
    ensures Drop(b, c) <= Drop(a, c)
  {
    Quotient(c - b, b, Drop(a, c));
    var d := Drop(a, c);
    assert d * a == c - a;
    Quotient(c - a, a, -1.0);
    TimesMono(-d - 1.0, b, a);
  }

  lemma PairIsCovered(curve: seq<real>, dd: real, i: nat, j: nat)
    requires LeastFromPeak(curve, |curve|, dd) && i <= j < |curve| && curve[i] > 0.0
    requires curve[j] >= 0.0 || LossesCovered(curve)
    ensures dd <= Drop(curve[i], curve[j])
  {
    hide Drop;
    PeakIsHighest(curve, j + 1);
    TroughIsLowest(curve, j + 1);
    if curve[j] >= 0.0 {
      HigherFallsFurther(Peak(curve, j + 1), curve[i], curve[j]);
    } else {
      LowerFallsFurtherBelowZero(curve[i], Trough(curve, j + 1).value, curve[j]);
    }
  }

  lemma AttainedFromPair(curve: seq<real>, dd: real)
    requires LeastFromPeak(curve, |curve|, dd) && dd != 0.0
    ensures exists i, j :: 0 <= i <= j < |curve| && curve[i] > 0.0 && dd == Drop(curve[i], curve[j])
  {
    hide Drop;
    var j :| 0 <= j < |curve| && Peak(curve, j + 1) > 0.0 && dd == Drop(Peak(curve, j + 1), curve[j]);
    PeakIsHighest(curve, j + 1);
  }

  lemma LossIsNegative(a: real, c: real)
    requires a > 0.0 && c < 0.0
    ensures Drop(a, c) < 0.0
  {
    Quotient(c - a, a, 0.0);
  }

  lemma CoveredByDrawdown(curve: seq<real>, dd: real, j: nat)
    requires LeastFromPeak(curve, |curve|, dd) && LeastOverPairs(curve, dd)
    requires j < |curve| && curve[j] < 0.0 && Trough(curve, j + 1).Some?
    ensures FallsTo(curve, Drop(Trough(curve, j + 1).value, curve[j]))
  {
    hide Drop, Peak, Trough;
    TroughIsLowest(curve, j + 1);
    LossIsNegative(Trough(curve, j + 1).value, curve[j]);
  }

  /** The one-pass result is the worst pair of the whole curve exactly when every negative point, measured from the
      lowest positive equity before it, is matched by a fall from a running peak. */
  lemma DrawdownIsPairwiseIff(curve: seq<real>, dd: real)
    requires LeastFromPeak(curve, |curve|, dd)
    ensures LeastOverPairs(curve, dd) <==> LossesCovered(curve)
  {
    hide Drop, Peak, Trough, FallsTo;
    if LossesCovered(curve) {
      forall i, j | 0 <= i <= j < |curve| && curve[i] > 0.0 ensures dd <= Drop(curve[i], curve[j]) {
        PairIsCovered(curve, dd, i, j);
      }
      if dd != 0.0 {
        AttainedFromPair(curve, dd);
      }
    }
    if LeastOverPairs(curve, dd) {
      forall j | 0 <= j < |curve| && curve[j] < 0.0 && Trough(curve, j + 1).Some?
        ensures FallsTo(curve, Drop(Trough(curve, j + 1).value, curve[j]))
      {
        CoveredByDrawdown(curve, dd, j);
      }
    }
  }

  /** Without negative points there is nothing to match, and no fall exceeds the whole. */
  lemma PeakDropsAreLeast(curve: seq<real>, dd: real)
    requires NonNegative(curve) && LeastFromPeak(curve, |curve|, dd)
    ensures LeastOverPairs(curve, dd) && -1.0 <= dd <= 0.0
  {
    hide Drop;
    DrawdownIsPairwiseIff(curve, dd);
    if dd != 0.0 {
      var j :| 0 <= j < |curve| && Peak(curve, j + 1) > 0.0 && dd == Drop(Peak(curve, j + 1), curve[j]);
      HigherFallsFurther(Peak(curve, j + 1), Peak(curve, j + 1), curve[j]);
    }
  }

  method MaxDrawdown(curve: seq<real>) returns (maxDd: real)
    ensures LeastFromPeak(curve, |curve|, maxDd)
    ensures LeastOverPairs(curve, maxDd) <==> LossesCovered(curve)
    ensures NonNegative(curve) ==> LeastOverPairs(curve, maxDd) && -1.0 <= maxDd <= 0.0
  {
    hide Drop, LeastFromPeak;
    var peak := DECIMAL_MIN;
    maxDd := 0.0;
    NoDrawdownYet(curve);
    for n := 0 to |curve|
      invariant peak == Peak(curve, n)
      invariant LeastFromPeak(curve, n, maxDd)
    {
      PointExtends(curve, n, maxDd);
      if curve[n] > peak {
        peak := curve[n];
      }
      if peak > 0.0 {
        var dd := Drop(peak, curve[n]);
        if dd < maxDd {
          maxDd := dd;
        }
      }
    }
    DrawdownIsPairwiseIff(curve, maxDd);
    if NonNegative(curve) {
      PeakDropsAreLeast(curve, maxDd);
    }
  }

  /** With negative equity the running peak is not the deepest start: 1, 2, -1 falls by 150% from its peak
      and by 200% from its first point. */
  lemma NegativeEquityDiffers(dd: real)
    requires LeastFromPeak([1.0, 2.0, -1.0], 3, dd)
    ensures dd == -1.5 && !LeastOverPairs([1.0, 2.0, -1.0], dd)
  {
    var curve := [1.0, 2.0, -1.0];
    assert Peak(curve, 1) == 1.0 && Peak(curve, 2) == 2.0 && Peak(curve, 3) == 2.0;
    assert Drop(curve[0], curve[2]) == -2.0;
  }

  // ---------------------------------------------------------------------------
  // Trade statistics
  // ---------------------------------------------------------------------------

  function Wins(ts: seq<Backtest.Trade>): (n: nat)
    ensures n <= |ts|
  {
    if ts == [] then 0
    else Wins(ts[..|ts| - 1]) + if ts[|ts| - 1].pnl >= 0.0 then 1 else 0
  }

  lemma {:induction false} WinsAreCounted(ts: seq<Backtest.Trade>)
    ensures Wins(ts) == |set i | 0 <= i < |ts| && ts[i].pnl >= 0.0|
    decreases |ts|
  {
    if ts != [] {
      var front, last := ts[..|ts| - 1], |ts| - 1;
      WinsAreCounted(front);
      var before := set i | 0 <= i < |front| && front[i].pnl >= 0.0;
      if ts[last].pnl >= 0.0 {
        assert (set i | 0 <= i < |ts| && ts[i].pnl >= 0.0) == before + {last};
      } else {
        assert (set i | 0 <= i < |ts| && ts[i].pnl >= 0.0) == before;
      }
    }
  }

  function GrossProfit(ts: seq<Backtest.Trade>): real {
    if ts == [] then 0.0 else GrossProfit(ts[..|ts| - 1]) + Max(0.0, ts[|ts| - 1].pnl)
  }

  function GrossLoss(ts: seq<Backtest.Trade>): real {
    if ts == [] then 0.0 else GrossLoss(ts[..|ts| - 1]) + Max(0.0, -ts[|ts| - 1].pnl)
  }

  lemma {:induction false} ProfitMinusLossIsPnl(ts: seq<Backtest.Trade>)
    ensures GrossProfit(ts) - GrossLoss(ts) == Backtest.SumPnl(ts)
    decreases |ts|
  {
    if ts != [] {
      ProfitMinusLossIsPnl(ts[..|ts| - 1]);
    }
  }

  /** The gross sums grow exactly by the profits and by the losses: a trade moves one of them, by its size, or none. */
  lemma GrossOfOneMore(ts: seq<Backtest.Trade>, t: Backtest.Trade)
    ensures GrossProfit([]) == 0.0 && GrossLoss([]) == 0.0
    ensures t.pnl >= 0.0 ==> GrossProfit(ts + [t]) == GrossProfit(ts) + t.pnl && GrossLoss(ts + [t]) == GrossLoss(ts)
    ensures t.pnl <= 0.0 ==> GrossProfit(ts + [t]) == GrossProfit(ts) && GrossLoss(ts + [t]) == GrossLoss(ts) - t.pnl
  {
    assert (ts + [t])[..|ts|] == ts;
  }

  predicate AllLose(ts: seq<Backtest.Trade>, from: nat, to: nat)
    requires from <= to <= |ts|
  {
    forall i :: from <= i < to ==> ts[i].pnl < 0.0
  }

  /** `k` is the length of the longest run of consecutive losing trades among the first `n`. */
  predicate LongestLosingRun(ts: seq<Backtest.Trade>, n: nat, k: nat)
    requires n <= |ts|
  {
    && (exists i: nat, j: nat :: i <= j <= n && j - i == k && AllLose(ts, i, j))
    && (forall i: nat, j: nat :: i <= j <= n && AllLose(ts, i, j) ==> j - i <= k)
  }

  /** The last `k` of the first `n` trades lose, and the one before them does not. */
  predicate LosingTail(ts: seq<Backtest.Trade>, n: nat, k: nat)
    requires n <= |ts|
  {
    k <= n && AllLose(ts, n - k, n) && (k < n ==> ts[n - k - 1].pnl >= 0.0)
  }

  lemma NoRunYet(ts: seq<Backtest.Trade>)
    ensures LongestLosingRun(ts, 0, 0)
  {
    assert AllLose(ts, 0, 0);
  }

  lemma WinEndsRun(ts: seq<Backtest.Trade>, n: nat, most: nat)
    requires n < |ts| && ts[n].pnl >= 0.0 && LongestLosingRun(ts, n, most)
    ensures LongestLosingRun(ts, n + 1, most)
  {
  }

  lemma LossExtendsRun(ts: seq<Backtest.Trade>, n: nat, k: nat, most: nat)
    requires n < |ts| && ts[n].pnl < 0.0 && LosingTail(ts, n, k) && LongestLosingRun(ts, n, most)
    ensures LosingTail(ts, n + 1, k + 1)
    ensures LongestLosingRun(ts, n + 1, if k + 1 > most then k + 1 else most)
  {
    assert AllLose(ts, n - k, n + 1);
    forall i: nat, j: nat | i <= j <= n + 1 && AllLose(ts, i, j) ensures j - i <= if k + 1 > most then k + 1 else most {
      LosingTailIsMaximal(ts, n, k, i, j);
    }
  }

  lemma LosingTailIsMaximal(ts: seq<Backtest.Trade>, n: nat, k: nat, i: nat, j: nat)
    requires n < |ts| && LosingTail(ts, n, k) && i <= j <= n + 1 && AllLose(ts, i, j)
    ensures j == n + 1 ==> i >= n - k
  {
  }

  method TradeStats(ts: seq<Backtest.Trade>) returns (winRate: real, profitFactor: real, maxCons: nat)
    ensures ts == [] ==> winRate == 0.0 && profitFactor == 0.0
    ensures ts != [] ==> Times(winRate, |ts| as real) == |set i | 0 <= i < |ts| && ts[i].pnl >= 0.0| as real
    ensures ts != [] ==> (profitFactor == DECIMAL_MAX && GrossLoss(ts) == 0.0)
                         || (GrossLoss(ts) > 0.0 && Times(profitFactor, GrossLoss(ts)) == GrossProfit(ts))
    ensures LongestLosingRun(ts, |ts|, maxCons)
  {
    hide LongestLosingRun, LosingTail, Times, Ratio;
    NoRunYet(ts);
    if ts == [] {
      return 0.0, 0.0, 0;
    }
    var wins, grossProfit, grossLoss, curCons := 0, 0.0, 0.0, 0;
    maxCons := 0;
    EmptyTail(ts, 0);
    for n := 0 to |ts|
      invariant wins == Wins(ts[..n]) && grossProfit == GrossProfit(ts[..n]) && grossLoss == GrossLoss(ts[..n])
      invariant grossLoss >= 0.0
      invariant 0 <= curCons && LosingTail(ts, n, curCons) && LongestLosingRun(ts, n, maxCons)
    {
      var t := ts[n];
      assert ts[..n + 1][..n] == ts[..n];
      if t.pnl >= 0.0 {
        wins := wins + 1;
        grossProfit := grossProfit + t.pnl;
        curCons := 0;
        WinEndsRun(ts, n, maxCons);
        EmptyTail(ts, n + 1);
      } else {
        grossLoss := grossLoss + Abs(t.pnl);
        LossExtendsRun(ts, n, curCons, maxCons);
        curCons := curCons + 1;
        if curCons > maxCons {
          maxCons := curCons;
        }
      }
    }
    assert ts[..|ts|] == ts;
    WinsAreCounted(ts);
    winRate, profitFactor := Ratio(wins as real, |ts| as real), DECIMAL_MAX;
    if grossLoss != 0.0 {
      profitFactor := Ratio(grossProfit, grossLoss);
    }
  }

  function Ratio(x: real, y: real): (r: real)
    requires y != 0.0
    ensures Times(r, y) == x
  {
    x / y
  }

  lemma EmptyTail(ts: seq<Backtest.Trade>, n: nat)
    requires n <= |ts| && (n > 0 ==> ts[n - 1].pnl >= 0.0)
    ensures LosingTail(ts, n, 0)
  {
  }
}
