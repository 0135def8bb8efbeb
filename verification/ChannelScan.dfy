/**
 Finding a channel: scoring a trend line against the bars (`scan.rs`), choosing the best of three
 lines, and the two scanners over five or six alternating pivots with their drawing hints (`find.rs`).
 */
module ChannelScan {
  import opened ChannelResolve
  import opened Options
  import opened Reals

  datatype Result<+T, +E> = Ok(value: T) | Err(error: E)

  datatype Point = Point(bar: int, price: real)
  datatype Ohlc = Ohlc(open: real, high: real, low: real, close: real)
  type Bars = map<int, Ohlc>

  /** `line_price_at_bar_index`. */
  function LinePriceAt(p1: Point, p2: Point, bar: int): Option<real> {
    var d := p2.bar - p1.bar;
    if d == 0 then None
    else Some(p1.price + Times((bar - p1.bar) as real, (p2.price - p1.price) / (d as real)))
  }

  /** The line through two points is the one that meets both. */
  lemma LineMeetsPoints(p1: Point, p2: Point)
    ensures p1.bar == p2.bar ==> forall b :: LinePriceAt(p1, p2, b) == None
    ensures p1.bar != p2.bar ==> LinePriceAt(p1, p2, p1.bar) == Some(p1.price) && LinePriceAt(p1, p2, p2.bar) == Some(p2.price)
  {
  }

  /** It is straight: from any bar to the next it moves by one common step. */
  lemma LineIsStraight(p1: Point, p2: Point, b: int, c: int)
    requires p1.bar != p2.bar
    ensures LinePriceAt(p1, p2, b).Some? && LinePriceAt(p1, p2, c).Some?
    ensures LinePriceAt(p1, p2, b + 1).value - LinePriceAt(p1, p2, b).value
         == LinePriceAt(p1, p2, c + 1).value - LinePriceAt(p1, p2, c).value
  {
    var m := (p2.price - p1.price) / ((p2.bar - p1.bar) as real);
    StepIs(m, b - p1.bar);
    StepIs(m, c - p1.bar);
    hide Times;
    assert b + 1 - p1.bar == (b - p1.bar) + 1 && c + 1 - p1.bar == (c - p1.bar) + 1;
  }

  lemma StepIs(m: real, k: int)
    ensures Times((k + 1) as real, m) == Times(k as real, m) + m
  {
    assert (k + 1) as real == k as real + 1.0;
  }

  // ---------------------------------------------------------------------------
  // Scoring one line
  // ---------------------------------------------------------------------------

  /** A candidate line, the third pivot's bar, and the side it bounds. */
  datatype Probe = Probe(p1: Point, p2: Point, otherBar: int, direction: real)

  datatype Verdict = Missing | Breaks | Touches | Passes

  /** What one bar says about a line. */
  function Judge(q: Probe, bars: Bars, b: int): Verdict {
    if b !in bars then Missing else
    var o := bars[b];
    match LinePriceAt(q.p1, q.p2, b)
    case None => Breaks
    case Some(linePrice) =>
      var barPrice := if q.direction > 0.0 then o.high else o.low;
      var barOut := if q.direction > 0.0 then o.low else o.high;
      var line := Times(linePrice, q.direction);
      if line < Min(Times(o.open, q.direction), Times(o.close, q.direction)) then Breaks
      else if line >= Times(barOut, q.direction) && line <= Times(barPrice, q.direction) then Touches
      else if b == q.otherBar then Breaks
      else Passes
  }

  /** What the verdicts mean in prices, without the direction.  An upper line breaks where it runs below a body, a
      lower one where it runs above it; otherwise it touches where it runs within the range of the bar, and at the
      third pivot it has to. */
  lemma JudgeInPrices(q: Probe, bars: Bars, b: int)
    requires b in bars && q.direction != 0.0 && q.p1.bar != q.p2.bar
    ensures var o, line := bars[b], LinePriceAt(q.p1, q.p2, b).value;
            var cuts := if q.direction > 0.0 then line < o.open && line < o.close else line > o.open && line > o.close;
            var meets := o.low <= line <= o.high;
            && (Judge(q, bars, b) == Touches <==> !cuts && meets)
            && (Judge(q, bars, b) == Breaks <==> cuts || (!meets && b == q.otherBar))
            && (Judge(q, bars, b) == Passes <==> !cuts && !meets && b != q.otherBar)
  {
    var o, line := bars[b], LinePriceAt(q.p1, q.p2, b).value;
    hide LinePriceAt, Times;
    Directed(q.direction, line, o.open);
    Directed(q.direction, line, o.close);
    Directed(q.direction, line, o.low);
    Directed(q.direction, line, o.high);
  }

  /** Multiplying by the direction keeps the order or turns it round. */
  lemma Directed(d: real, x: real, y: real)
    requires d != 0.0
    ensures Times(x, d) < Times(y, d) <==> if d > 0.0 then x < y else y < x
    ensures Times(y, d) < Times(x, d) <==> if d > 0.0 then y < x else x < y
  {
    var c := if d > 0.0 then d else -d;
    TimesLess(c, x, y);
    TimesLess(c, y, x);
    assert Times(x, d) == if d > 0.0 then Times(c, x) else -Times(c, x);
    assert Times(y, d) == if d > 0.0 then Times(c, y) else -Times(c, y);
  }

  /** Number of bars in `[lo, hi)` that touch the line. */
  function TouchCount(q: Probe, bars: Bars, lo: int, hi: int): nat
    decreases hi - lo
  {
    if lo >= hi then 0
    else TouchCount(q, bars, lo, hi - 1) + if Judge(q, bars, hi - 1) == Touches then 1 else 0
  }

  /** First bar in `[lo, hi)` that breaks the line, or `hi`. */
  function FirstBreak(q: Probe, bars: Bars, lo: int, hi: int): (b: int)
    requires lo <= hi
    ensures lo <= b <= hi
    ensures b < hi ==> Judge(q, bars, b) == Breaks
    ensures forall k :: lo <= k < b ==> Judge(q, bars, k) != Breaks
    decreases hi - lo
  {
    if lo == hi || Judge(q, bars, lo) == Breaks then lo else FirstBreak(q, bars, lo + 1, hi)
  }

  datatype Score = Score(ok: bool, touches: nat)

  /** `trend_line_inspect` as a function: touches up to the first break, and whether there is none. */
  function Inspect(q: Probe, bars: Bars, start: int, end: int, ratioMax: real): Score {
    if start > end then Score(false, 0) else
    var stop := FirstBreak(q, bars, start, end + 1);
    var touches := TouchCount(q, bars, start, stop);
    Score(stop == end + 1 && touches as real / (end + 1 - start) as real < ratioMax, touches)
  }

  /** The loop of `trend_line_inspect`. */
  method TrendLineInspect(q: Probe, bars: Bars, start: int, end: int, ratioMax: real) returns (ok: bool, score: nat)
    ensures Score(ok, score) == Inspect(q, bars, start, end, ratioMax)
    ensures ok <==> && start <= end
                    && (forall b :: start <= b <= end ==> Judge(q, bars, b) != Breaks)
                    && score as real / (end + 1 - start) as real < ratioMax
  {
    if start > end {
      return false, 0;
    }
    score := 0;
    var total := 0;
    var loopValid := true;
    var b := start;
    while b <= end && loopValid
      invariant start <= b <= end + 1
      invariant loopValid ==> total == b - start
      invariant loopValid ==> forall k :: start <= k < b ==> Judge(q, bars, k) != Breaks
      invariant score == TouchCount(q, bars, start, b)
      invariant !loopValid ==> b <= end && b == FirstBreak(q, bars, start, end + 1)
      decreases end - b, loopValid
    {
      total := total + 1;
      match Judge(q, bars, b)
      case Missing => b := b + 1;
      case Passes => b := b + 1;
      case Touches => score, b := score + 1, b + 1;
      case Breaks =>
        loopValid := false;
    }
    ok := loopValid && total > 0 && score as real / total as real < ratioMax;
  }

  /** The score of a line that nothing breaks is the number of bars it touches, in whatever order they are met. */
  lemma {:induction false} TouchCountIsCardinality(q: Probe, bars: Bars, lo: int, hi: int)
    requires lo <= hi
    ensures TouchCount(q, bars, lo, hi) == |set b | lo <= b < hi && Judge(q, bars, b) == Touches|
    decreases hi - lo
  {
    var all := set b | lo <= b < hi && Judge(q, bars, b) == Touches;
    if lo < hi {
      TouchCountIsCardinality(q, bars, lo, hi - 1);
      var rest := set b | lo <= b < hi - 1 && Judge(q, bars, b) == Touches;
      if Judge(q, bars, hi - 1) == Touches {
        assert all == rest + {hi - 1};
      } else {
        assert all == rest;
      }
    } else {
      assert all == {};
    }
  }

  // ---------------------------------------------------------------------------
  // Choosing among three lines
  // ---------------------------------------------------------------------------

  datatype Picked = Picked(ok: bool, pick: int, score: nat)

  function MaxNat(x: nat, y: nat): nat { if x >= y then x else y }

  /** `inspect_pick_best_three_point_line`. */
  function PickBest(p0: Point, p1: Point, p2: Point, direction: real, bars: Bars, ratioMax: real): Picked {
    var first := MinInt(MinInt(p0.bar, p1.bar), p2.bar);
    var last := MaxInt(MaxInt(p0.bar, p1.bar), p2.bar);
    var s1 := Inspect(Probe(p0, p2, p1.bar, direction), bars, first, last, ratioMax);
    var s2 := Inspect(Probe(p0, p1, p2.bar, direction), bars, first, last, ratioMax);
    var s3 := Inspect(Probe(p1, p2, p0.bar, direction), bars, first, last, ratioMax);
    if s1.ok && s1.touches > MaxNat(s2.touches, s3.touches) then Picked(s1.ok, 1, s1.touches)
    else if s2.ok && s2.touches > MaxNat(s1.touches, s3.touches) then Picked(s2.ok, 2, s2.touches)
    else Picked(s3.ok, 3, s3.touches)
  }

  /** Among the lines through two of three points, `a`-`c`, `a`-`b` and `b`-`c`, the picked one is reported with its own
      verdict and score.  The first two are only picked when they hold and touch more bars than either other line,
      and the third only when neither of them does. */
  lemma PickedLineWon(a: Point, b: Point, c: Point, direction: real, bars: Bars, ratioMax: real)
    ensures var first, last := MinInt(MinInt(a.bar, b.bar), c.bar), MaxInt(MaxInt(a.bar, b.bar), c.bar);
            var ac := Inspect(Probe(a, c, b.bar, direction), bars, first, last, ratioMax);
            var ab := Inspect(Probe(a, b, c.bar, direction), bars, first, last, ratioMax);
            var bc := Inspect(Probe(b, c, a.bar, direction), bars, first, last, ratioMax);
            var w := PickBest(a, b, c, direction, bars, ratioMax);
            var acWins := ac.ok && ac.touches > ab.touches && ac.touches > bc.touches;
            var abWins := ab.ok && ab.touches > ac.touches && ab.touches > bc.touches;
            && (acWins <==> w.pick == 1) && (abWins <==> w.pick == 2) && (w.pick in {1, 2, 3})
            && (w.pick == 1 ==> Score(w.ok, w.score) == ac && Endpoints(w.pick, a, b, c) == (a, c))
            && (w.pick == 2 ==> Score(w.ok, w.score) == ab && Endpoints(w.pick, a, b, c) == (a, b))
            && (w.pick == 3 ==> Score(w.ok, w.score) == bc && Endpoints(w.pick, a, b, c) == (b, c))
  {
    hide Inspect;
  }

  function MinInt(x: int, y: int): int { if x <= y then x else y }
  function MaxInt(x: int, y: int): int { if x >= y then x else y }

  /** `inspect_two_point_line`. */
  function InspectTwo(first: Point, last: Point, direction: real, bars: Bars, ratioMax: real): Score {
    Inspect(Probe(first, last, first.bar, direction), bars, MinInt(first.bar, last.bar), MaxInt(first.bar, last.bar), ratioMax)
  }

  /** `endpoints_from_pick_three`. */
  function Endpoints(pick: int, a: Point, b: Point, c: Point): (Point, Point) {
    if pick == 1 then (a, c) else if pick == 2 then (a, b) else (b, c)
  }

  // ---------------------------------------------------------------------------
  // Scanning a window of pivots
  // ---------------------------------------------------------------------------

  datatype Pivot = Pivot(bar: int, price: real, dir: int)

  function At(p: Pivot): Point { Point(p.bar, p.price) }

  datatype SizeFilters = SizeFilters(
    byBar: bool, minBars: int, maxBars: int, byPercent: bool, minPercent: real, maxPercent: real)

  datatype Params = Params(
    pivots: nat, barRatioEnabled: bool, barRatioLimit: real, flatRatio: real, scoreRatioMax: real,
    upperDirection: real, lowerDirection: real, size: SizeFilters, ignoreIfEntryCrossed: bool)

  datatype WindowFilter = WindowFilter(
    avoidOverlap: bool, existingRanges: seq<(int, int)>, duplicateBars: Option<seq<int>>,
    lastPivotDirections: Option<seq<int>>)

  datatype Scan = Scan(
    patternTypeId: int, pickUpper: int, pickLower: int, upperOk: bool, lowerOk: bool, upperScore: nat, lowerScore: nat)

  function SignInt(x: int): int { if x > 0 then 1 else if x < 0 then -1 else 0 }
  function AbsInt(x: int): nat { if x < 0 then -x else x }

  /** Pivots `i` and `i + 1` point in opposite directions, neither of them flat. */
  predicate Turns(p: seq<Pivot>, i: nat)
    requires i + 1 < |p|
  {
    SignInt(p[i].dir) != 0 && SignInt(p[i + 1].dir) != 0 && SignInt(p[i].dir) != SignInt(p[i + 1].dir)
  }

  predicate Alternating(p: seq<Pivot>) {
    forall i :: 0 <= i && i + 1 < |p| ==> Turns(p, i)
  }

  /** The pivots alternate exactly when neighbours point in opposite directions. */
  lemma AlternatingIsOpposite(p: seq<Pivot>)
    ensures Alternating(p) <==> forall i :: 0 <= i < |p| - 1 ==> p[i].dir * p[i + 1].dir < 0
  {
    if Alternating(p) {
      forall i | 0 <= i < |p| - 1 ensures p[i].dir * p[i + 1].dir < 0 {
        assert Turns(p, i);
        SignOfProduct(p[i].dir, p[i + 1].dir);
      }
    } else {
      var i :| 0 <= i && i + 1 < |p| && !Turns(p, i);
      SignOfProduct(p[i].dir, p[i + 1].dir);
      assert !(p[i].dir * p[i + 1].dir < 0);
    }
  }

  lemma SignOfProduct(x: int, y: int)
    ensures x * y < 0 <==> (x < 0 < y || y < 0 < x)
  {
  }

  /** `check_bar_ratio`; a limit of 0 makes the upper bound infinite. */
  predicate CheckBarRatio(b1: int, b2: int, b3: int, enabled: bool, limit: real) {
    enabled ==>
      var den := AbsInt(b2 - b1);
      den != 0 &&
      var r := AbsInt(b3 - b2) as real / den as real;
      limit <= r && (limit == 0.0 || r <= 1.0 / limit)
  }

  /** The test without the division: neither of the two legs is shorter than `limit` times the other, and the first
      is not empty. */
  lemma BarRatioIsBalance(b1: int, b2: int, b3: int, limit: real)
    requires limit >= 0.0
    ensures var x, y := AbsInt(b2 - b1) as real, AbsInt(b3 - b2) as real;
            && CheckBarRatio(b1, b2, b3, false, limit)
            && (CheckBarRatio(b1, b2, b3, true, limit) <==> b1 != b2 && Times(limit, x) <= y && Times(limit, y) <= x)
  {
    var x, y := AbsInt(b2 - b1) as real, AbsInt(b3 - b2) as real;
    if b1 != b2 {
      Quotient(y, x, limit);
      if limit > 0.0 {
        var top := 1.0 / limit;
        Quotient(y, x, top);
        TimesLess(limit, y, top * x);
        TimesLess(limit, top * x, y);
        assert limit * top == 1.0;
        assert Times(limit, top * x) == (limit * top) * x == x;
      } else {
        TimesUnits(y);
      }
    }
  }

  /** The two lines chosen for a window, as `scan_six_alternating_pivots` inspects them. */
  datatype Choice = Choice(upper: Picked, lower: Picked, u1: Point, u2: Point, l1: Point, l2: Point)

  function Choose(p: seq<Pivot>, bars: Bars, params: Params): Choice
    requires |p| >= 5 && (params.pivots == 6 ==> |p| >= 6)
  {
    var upper := PickBest(At(p[0]), At(p[2]), At(p[4]), params.upperDirection, bars, params.scoreRatioMax);
    var (u1, u2) := Endpoints(upper.pick, At(p[0]), At(p[2]), At(p[4]));
    if params.pivots == 6 then
      var lower := PickBest(At(p[1]), At(p[3]), At(p[5]), params.lowerDirection, bars, params.scoreRatioMax);
      var (l1, l2) := Endpoints(lower.pick, At(p[1]), At(p[3]), At(p[5]));
      Choice(upper, lower, u1, u2, l1, l2)
    else
      var s := InspectTwo(At(p[1]), At(p[3]), params.lowerDirection, bars, params.scoreRatioMax);
      Choice(upper, Picked(s.ok, 1, s.touches), u1, u2, At(p[1]), At(p[3]))
  }

  function LastOf(p: seq<Pivot>, params: Params): Pivot
    requires |p| >= 5 && (params.pivots == 6 ==> |p| >= 6)
  {
    if params.pivots == 6 then p[5] else p[4]
  }

  /** The bar ratio tests on the upper and, for six pivots, the lower triple. */
  predicate RatiosOk(p: seq<Pivot>, params: Params)
    requires |p| >= 5 && (params.pivots == 6 ==> |p| >= 6)
  {
    && CheckBarRatio(p[0].bar, p[2].bar, p[4].bar, params.barRatioEnabled, params.barRatioLimit)
    && (params.pivots == 6 ==>
          CheckBarRatio(p[1].bar, p[3].bar, p[5].bar, params.barRatioEnabled, params.barRatioLimit))
  }

  /** `scan_six_alternating_pivots`. */
  function ScanPivots(p: seq<Pivot>, bars: Bars, params: Params): Option<Scan> {
    if !(params.pivots == 5 || params.pivots == 6) || |p| != params.pivots then None
    else if !Alternating(p) then None
    else if !RatiosOk(p, params) then None
    else
      var c := Choose(p, bars, params);
      if !c.upper.ok || !c.lower.ok then None else
      var bFirst := MinInt(p[0].bar, LastOf(p, params).bar);
      var bLast := MaxInt(p[0].bar, LastOf(p, params).bar);
      match (LinePriceAt(c.u1, c.u2, bFirst), LinePriceAt(c.u1, c.u2, bLast),
             LinePriceAt(c.l1, c.l2, bFirst), LinePriceAt(c.l1, c.l2, bLast))
      case (Some(t1p1), Some(t1p2), Some(t2p1), Some(t2p2)) =>
        Some(Scan(Resolve(Line(t1p1, t1p2), Line(t2p1, t2p2), bLast - bFirst, params.flatRatio),
                  c.upper.pick, c.lower.pick, c.upper.ok, c.lower.ok, c.upper.score, c.lower.score))
      case _ => None
  }

  // ---------------------------------------------------------------------------
  // Drawing hints
  // ---------------------------------------------------------------------------

  datatype Hints = Hints(upper1: Point, upper2: Point, lower1: Point, lower2: Point)

  function PriceOr(p1: Point, p2: Point, bar: int, default: real): Point {
    Point(bar, match LinePriceAt(p1, p2, bar) case Some(x) => x case None => default)
  }

  /** `channel_six_drawing_hints`. */
  function DrawingHints(scan: Scan, p: seq<Pivot>): Hints
    requires |p| == 5 || |p| >= 6
  {
    var (u1, u2) := Endpoints(scan.pickUpper, At(p[0]), At(p[2]), At(p[4]));
    var last := if |p| == 5 then p[4] else p[5];
    var (l1, l2) := if |p| == 5 then (At(p[1]), At(p[3])) else Endpoints(scan.pickLower, At(p[1]), At(p[3]), At(p[5]));
    var bFirst := MinInt(p[0].bar, last.bar);
    var bLast := MaxInt(p[0].bar, last.bar);
    Hints(PriceOr(u1, u2, bFirst, u1.price), PriceOr(u1, u2, bLast, u2.price),
          PriceOr(l1, l2, bFirst, l1.price), PriceOr(l1, l2, bLast, l2.price))
  }

  predicate Increasing(p: seq<Pivot>) {
    forall i, j :: 0 <= i < j < |p| ==> p[i].bar < p[j].bar
  }

  lemma SlopeOf(p1: Point, p2: Point, m: real, f: int, g: int)
    requires p1.bar != p2.bar && f != g && m == (p2.price - p1.price) / ((p2.bar - p1.bar) as real)
    ensures var yf := p1.price + Times((f - p1.bar) as real, m);
            var yg := p1.price + Times((g - p1.bar) as real, m);
            (yg - yf) / ((g - f) as real) == m
  {
    var df, dg, d := (f - p1.bar) as real, (g - p1.bar) as real, (g - f) as real;
    assert dg == df + d;
    assert Times(dg, m) == Times(df, m) + d * m;
    assert (d * m) / d == m;
  }

  /** Redrawing a line from its values at two other bars gives the same line, at every bar. */
  lemma RedrawnLine(p1: Point, p2: Point, f: int, g: int, b: int)
    requires p1.bar != p2.bar && f != g
    ensures LinePriceAt(PriceOr(p1, p2, f, p1.price), PriceOr(p1, p2, g, p2.price), b) == LinePriceAt(p1, p2, b)
  {
    var m := (p2.price - p1.price) / ((p2.bar - p1.bar) as real);
    SlopeOf(p1, p2, m, f, g);
    var bf, fp := (b - f) as real, (f - p1.bar) as real;
    assert (b - p1.bar) as real == bf + fp;
    assert Times(bf + fp, m) == Times(bf, m) + Times(fp, m);
  }

  /** The hints draw exactly the two lines the scan picked: their value agrees at every bar. */
  lemma HintsFollowPickedLines(p: seq<Pivot>, bars: Bars, params: Params, b: int)
    requires Increasing(p)
    ensures match ScanPivots(p, bars, params)
            case None => true
            case Some(s) =>
              && (|p| == 5 || |p| == 6) && |p| == params.pivots
              && var c, h := Choose(p, bars, params), DrawingHints(s, p);
                 && LinePriceAt(h.upper1, h.upper2, b) == LinePriceAt(c.u1, c.u2, b) != None
                 && LinePriceAt(h.lower1, h.lower2, b) == LinePriceAt(c.l1, c.l2, b) != None
  {
    hide PickBest, Inspect;
    if ScanPivots(p, bars, params).None? {
      return;
    }
    var c := Choose(p, bars, params);
    var bFirst := MinInt(p[0].bar, LastOf(p, params).bar);
    var bLast := MaxInt(p[0].bar, LastOf(p, params).bar);
    RedrawnLine(c.u1, c.u2, bFirst, bLast, b);
    RedrawnLine(c.l1, c.l2, bFirst, bLast, b);
  }

  /** The two pivots a pick stands for, among the pivots `i`, `i + 2` and `i + 4`. */
  function PickedPivots(pick: int, p: seq<Pivot>, i: nat): (Pivot, Pivot)
    requires i + 4 < |p|
  {
    if pick == 1 then (p[i], p[i + 4]) else if pick == 2 then (p[i], p[i + 2]) else (p[i + 2], p[i + 4])
  }

  lemma ChosenPivots(p: seq<Pivot>, bars: Bars, params: Params)
    requires Increasing(p) && ScanPivots(p, bars, params).Some?
    ensures var s, c := ScanPivots(p, bars, params).value, Choose(p, bars, params);
            && (|p| == 5 || |p| == 6) && |p| == params.pivots
            && var h := DrawingHints(s, p);
               var (u1, u2) := PickedPivots(s.pickUpper, p, 0);
               var (l1, l2) := if |p| == 5 then (p[1], p[3]) else PickedPivots(s.pickLower, p, 1);
               && c.u1 == Point(u1.bar, u1.price) && c.u2 == Point(u2.bar, u2.price) && u1.bar != u2.bar
               && c.l1 == Point(l1.bar, l1.price) && c.l2 == Point(l2.bar, l2.price) && l1.bar != l2.bar
               && h.upper1.bar == h.lower1.bar == p[0].bar && h.upper2.bar == h.lower2.bar == p[|p| - 1].bar
  {
    hide PickBest, Inspect, LinePriceAt, Resolve;
  }

  /** The drawn upper line runs from the first bar of the window to the last and passes through the two pivots it was
      picked for; so does the lower one, which for five pivots always joins the second and the fourth. */
  lemma HintsMeetPivots(p: seq<Pivot>, bars: Bars, params: Params)
    requires Increasing(p) && ScanPivots(p, bars, params).Some?
    ensures var s := ScanPivots(p, bars, params).value;
            && (|p| == 5 || |p| == 6)
            && var h := DrawingHints(s, p);
               var (u1, u2) := PickedPivots(s.pickUpper, p, 0);
               var (l1, l2) := if |p| == 5 then (p[1], p[3]) else PickedPivots(s.pickLower, p, 1);
               && h.upper1.bar == h.lower1.bar == p[0].bar && h.upper2.bar == h.lower2.bar == p[|p| - 1].bar
               && LinePriceAt(h.upper1, h.upper2, u1.bar) == Some(u1.price)
               && LinePriceAt(h.upper1, h.upper2, u2.bar) == Some(u2.price)
               && LinePriceAt(h.lower1, h.lower2, l1.bar) == Some(l1.price)
               && LinePriceAt(h.lower1, h.lower2, l2.bar) == Some(l2.price)
  {
    var s := ScanPivots(p, bars, params).value;
    var c := Choose(p, bars, params);
    ChosenPivots(p, bars, params);
    hide *;
    var (u1, u2) := PickedPivots(s.pickUpper, p, 0);
    var (l1, l2) := if |p| == 5 then (p[1], p[3]) else PickedPivots(s.pickLower, p, 1);
    HintsFollowPickedLines(p, bars, params, u1.bar);
    HintsFollowPickedLines(p, bars, params, u2.bar);
    HintsFollowPickedLines(p, bars, params, l1.bar);
    HintsFollowPickedLines(p, bars, params, l2.bar);
    LineMeetsPoints(c.u1, c.u2);
    LineMeetsPoints(c.l1, c.l2);
  }

  /** The reported picks and scores are those of the winning lines, which all hold. */
  lemma ReportedPicksWon(p: seq<Pivot>, bars: Bars, params: Params)
    requires ScanPivots(p, bars, params).Some?
    ensures var s, ratio := ScanPivots(p, bars, params).value, params.scoreRatioMax;
            && (|p| == 5 || |p| == 6) && s.upperOk && s.lowerOk
            && PickBest(At(p[0]), At(p[2]), At(p[4]), params.upperDirection, bars, ratio) == Picked(true, s.pickUpper, s.upperScore)
            && (|p| == 6 ==>
                  PickBest(At(p[1]), At(p[3]), At(p[5]), params.lowerDirection, bars, ratio) == Picked(true, s.pickLower, s.lowerScore))
            && (|p| == 5 ==> s.pickLower == 1)
            && (|p| == 5 ==>
                  Inspect(Probe(At(p[1]), At(p[3]), p[1].bar, params.lowerDirection), bars,
                          MinInt(p[1].bar, p[3].bar), MaxInt(p[1].bar, p[3].bar), ratio) == Score(true, s.lowerScore))
  {
    hide PickBest, Inspect, LinePriceAt, Resolve;
  }

  /** The lines the hints draw, as the classifier sees them. */
  function UpperLine(h: Hints): Line { Line(h.upper1.price, h.upper2.price) }
  function LowerLine(h: Hints): Line { Line(h.lower1.price, h.lower2.price) }

  /** Classifying the drawn channel gives back the reported id. */
  lemma HintsClassifyAlike(p: seq<Pivot>, bars: Bars, params: Params)
    ensures match ScanPivots(p, bars, params)
            case None => true
            case Some(s) =>
              && (|p| == 5 || |p| == 6)
              && var h := DrawingHints(s, p);
                 Resolve(UpperLine(h), LowerLine(h), h.upper2.bar - h.upper1.bar, params.flatRatio) == s.patternTypeId
  {
    hide PickBest, Inspect, Resolve;
  }

  /** What a reader of the chart may rely on: the picture is the one the reported id stands for, and the id names a
      shape exactly when the drawn lines are ordered and not thin. */
  lemma ReportedShapeIsDrawn(p: seq<Pivot>, bars: Bars, params: Params)
    requires Increasing(p) && ScanPivots(p, bars, params).Some? && params.flatRatio >= 0.0
    ensures var s := ScanPivots(p, bars, params).value;
            var t1, t2 := UpperLine(DrawingHints(s, p)), LowerLine(DrawingHints(s, p));
            && Depicts(s.patternTypeId, Upper(t1, t2), Lower(t1, t2))
            && if Ordered(t1, t2) && !Thin(TINY, Upper(t1, t2), Lower(t1, t2)) then 1 <= s.patternTypeId <= 13
               else s.patternTypeId == 0
  {
    var s := ScanPivots(p, bars, params).value;
    var h := DrawingHints(s, p);
    var n := h.upper2.bar - h.upper1.bar;
    assert n > 0 by { hide PickBest, Resolve, LinePriceAt; }
    HintsClassifyAlike(p, bars, params);
    hide ScanPivots, DrawingHints, Resolve, Depicts, Times, Ordered, Thin;
    EveryChannelHasAShape(UpperLine(h), LowerLine(h), n, params.flatRatio);
    ShapesAreSound(UpperLine(h), LowerLine(h), n, params.flatRatio);
  }

  // ---------------------------------------------------------------------------
  // The filtering scanner
  // ---------------------------------------------------------------------------

  datatype RejectCode =
    | InsufficientPivots | PivotAlternation | BarRatioUpper | BarRatioLower | InspectUpper | InspectLower
    | PatternNotAllowed | OverlapIgnored | DuplicatePivotWindow | LastPivotDirection | SizeFilter | EntryNotInChannel

  function LowestBar(p: seq<Pivot>): int
    requires p != []
  {
    if |p| == 1 then p[0].bar else MinInt(LowestBar(p[..|p| - 1]), p[|p| - 1].bar)
  }

  function HighestBar(p: seq<Pivot>): int
    requires p != []
  {
    if |p| == 1 then p[0].bar else MaxInt(HighestBar(p[..|p| - 1]), p[|p| - 1].bar)
  }

  function LowestPrice(p: seq<Pivot>): real
    requires p != []
  {
    if |p| == 1 then p[0].price else Min(LowestPrice(p[..|p| - 1]), p[|p| - 1].price)
  }

  function HighestPrice(p: seq<Pivot>): real
    requires p != []
  {
    if |p| == 1 then p[0].price else Max(HighestPrice(p[..|p| - 1]), p[|p| - 1].price)
  }

  /** The folds of the loop are the extremes of the window: they bound every pivot, and some pivot attains each. */
  lemma {:induction false} BarExtremesAreAttained(p: seq<Pivot>)
    requires p != []
    ensures forall q :: q in p ==> LowestBar(p) <= q.bar <= HighestBar(p)
    ensures (exists q :: q in p && q.bar == LowestBar(p)) && (exists q :: q in p && q.bar == HighestBar(p))
    decreases |p|
  {
    if |p| > 1 {
      var front, last := p[..|p| - 1], p[|p| - 1];
      BarExtremesAreAttained(front);
      assert p == front + [last];
      var low :| low in front && low.bar == LowestBar(front);
      var high :| high in front && high.bar == HighestBar(front);
      assert low in p && high in p && last in p;
    } else {
      assert p[0] in p;
    }
  }

  lemma {:induction false} PriceExtremesAreAttained(p: seq<Pivot>)
    requires p != []
    ensures forall q :: q in p ==> LowestPrice(p) <= q.price <= HighestPrice(p)
    ensures (exists q :: q in p && q.price == LowestPrice(p)) && (exists q :: q in p && q.price == HighestPrice(p))
    decreases |p|
  {
    if |p| > 1 {
      var front, last := p[..|p| - 1], p[|p| - 1];
      PriceExtremesAreAttained(front);
      assert p == front + [last];
      var low :| low in front && low.price == LowestPrice(front);
      var high :| high in front && high.price == HighestPrice(front);
      assert low in p && high in p && last in p;
    } else {
      assert p[0] in p;
    }
  }

  function RangeOver(range: real, base: real): real { if base < TINY then 0.0 else range / base }

  /** The price range of a window, over the absolute value of its highest price. */
  function PriceRatio(p: seq<Pivot>): real
    requires p != []
  {
    RangeOver(HighestPrice(p) - LowestPrice(p), Abs(HighestPrice(p)))
  }

  /** The size filters, without folds: against the extremes of the window, whichever pivots attain them. */
  lemma SizeOkByExtremes(p: seq<Pivot>, f: SizeFilters, first: int, last: int, low: real, high: real)
    requires p != []
    requires forall q :: q in p ==> first <= q.bar <= last && low <= q.price <= high
    requires (exists q :: q in p && q.bar == first) && (exists q :: q in p && q.bar == last)
    requires (exists q :: q in p && q.price == low) && (exists q :: q in p && q.price == high)
    ensures SizeOk(p, f) <==>
              && (f.byBar ==> f.minBars <= last - first <= f.maxBars)
              && (f.byPercent ==> f.minPercent <= RangeOver(high - low, Abs(high)) <= f.maxPercent)
  {
    BarExtremesAreAttained(p);
    PriceExtremesAreAttained(p);
    hide LowestBar, HighestBar, LowestPrice, HighestPrice;
    assert LowestBar(p) == first && HighestBar(p) == last;
    assert LowestPrice(p) == low && HighestPrice(p) == high;
  }

  predicate SizeOk(p: seq<Pivot>, f: SizeFilters) {
    (!f.byBar && !f.byPercent) ||
    (p != [] &&
     var barDiff := HighestBar(p) - LowestBar(p);
     && (f.byBar ==> f.minBars <= barDiff <= f.maxBars)
     && (f.byPercent ==> f.minPercent <= PriceRatio(p) <= f.maxPercent))
  }

  /** The absolute value of the highest price is the largest absolute price exactly when the lowest price is not
      below its negation. */
  lemma DivisorIsLargestIff(p: seq<Pivot>)
    requires p != []
    ensures (forall q :: q in p ==> Abs(q.price) <= Abs(HighestPrice(p))) <==> -LowestPrice(p) <= Abs(HighestPrice(p))
  {
    PriceExtremesAreAttained(p);
  }

  lemma LargestOfExtremes(p: seq<Pivot>, largest: real)
    requires p != []
    requires (forall q :: q in p ==> Abs(q.price) <= largest) && (exists q :: q in p && Abs(q.price) == largest)
    ensures LowestPrice(p) <= HighestPrice(p) && largest == Max(Abs(HighestPrice(p)), -LowestPrice(p))
  {
    PriceExtremesAreAttained(p);
    var low :| low in p && low.price == LowestPrice(p);
    var high :| high in p && high.price == HighestPrice(p);
  }

  lemma RangeOverDiffers(range: real, base: real, base': real)
    requires range > 0.0 && 0.0 <= base < base' && TINY <= base'
    ensures RangeOver(range, base) != RangeOver(range, base')
  {
    var r := range / base';
    assert Times(base', r) == range;
    if base >= TINY && range / base == r {
      assert Times(base, r) == range;
      TimesSwap(base, r, 1.0);
      assert r > 0.0 by { Quotient(range, base', 0.0); }
      TimesLess(r, base, base');
    }
  }

  /** The range over the largest absolute price, as documented, is the ratio of the code exactly when the highest
      price has the largest absolute value, or both are too small to divide by. */
  lemma RatioIsDocumentedIff(p: seq<Pivot>, largest: real)
    requires p != []
    requires (forall q :: q in p ==> Abs(q.price) <= largest) && (exists q :: q in p && Abs(q.price) == largest)
    ensures PriceRatio(p) == RangeOver(HighestPrice(p) - LowestPrice(p), largest)
       <==> -LowestPrice(p) <= Abs(HighestPrice(p)) || -LowestPrice(p) < TINY
  {
    LargestOfExtremes(p, largest);
    var low, high := LowestPrice(p), HighestPrice(p);
    if -low > Abs(high) && -low >= TINY {
      hide RangeOver, LowestPrice, HighestPrice;
      RangeOverDiffers(high - low, Abs(high), largest);
    }
  }

  const DEEP := [Pivot(0, 1.0, 1), Pivot(1, -10.0, -1), Pivot(2, 1.0, 1), Pivot(3, -10.0, -1), Pivot(4, 1.0, 1)]

  lemma DeepExtremes()
    ensures HighestPrice(DEEP) == 1.0 && LowestPrice(DEEP) == -10.0
    ensures forall q :: q in DEEP ==> Abs(q.price) <= 10.0
  {
    hide HighestPrice, LowestPrice;
    assert DEEP[0] in DEEP && DEEP[1] in DEEP;
    PriceExtremesAreAttained(DEEP);
  }

  /** Between 1 and -10 the code finds a ratio of 11 where the documentation says 1.1, and a filter tells them apart. */
  lemma DeepWindowDiffers()
    ensures (forall q :: q in DEEP ==> Abs(q.price) <= 10.0) && (exists q :: q in DEEP && Abs(q.price) == 10.0)
    ensures PriceRatio(DEEP) == 11.0 && RangeOver(HighestPrice(DEEP) - LowestPrice(DEEP), 10.0) == 1.1
    ensures !SizeOk(DEEP, SizeFilters(false, 0, 1000, true, 0.0, 2.0))
  {
    DeepExtremes();
    hide HighestPrice, LowestPrice;
    assert DEEP[1] in DEEP && Abs(DEEP[1].price) == 10.0;
  }

  /** The loop of `check_size_pivots`. */
  method CheckSizePivots(p: seq<Pivot>, f: SizeFilters) returns (ok: bool)
    ensures ok == SizeOk(p, f)
  {
    if !f.byBar && !f.byPercent {
      return true;
    }
    if p == [] {
      return false;
    }
    var barMin, barMax, priceMin, priceMax := p[0].bar, p[0].bar, p[0].price, p[0].price;
    for i := 0 to |p|
      invariant i == 0 ==> barMin == barMax == p[0].bar && priceMin == priceMax == p[0].price
      invariant i > 0 ==> barMin == LowestBar(p[..i]) && barMax == HighestBar(p[..i])
      invariant i > 0 ==> priceMin == LowestPrice(p[..i]) && priceMax == HighestPrice(p[..i])
    {
      assert p[..i + 1][..|p[..i + 1]| - 1] == p[..i];
      barMin, barMax := MinInt(barMin, p[i].bar), MaxInt(barMax, p[i].bar);
      priceMin, priceMax := Min(priceMin, p[i].price), Max(priceMax, p[i].price);
    }
    assert p[..|p|] == p;
    var denom := Abs(priceMax);
    var ratio := if denom < TINY then 0.0 else (priceMax - priceMin) / denom;
    ok := (f.byBar ==> f.minBars <= barMax - barMin <= f.maxBars)
          && (f.byPercent ==> f.minPercent <= ratio <= f.maxPercent);
  }

  predicate Overlaps(p: seq<Pivot>, filter: WindowFilter)
    requires p != []
  {
    filter.avoidOverlap &&
    exists i :: 0 <= i < |filter.existingRanges| &&
      var r := filter.existingRanges[i];
      MinInt(r.0, r.1) < p[0].bar < MaxInt(r.0, r.1)
  }

  predicate Duplicates(p: seq<Pivot>, filter: WindowFilter, params: Params)
    requires |p| == params.pivots
  {
    && filter.duplicateBars.Some?
    && var prefix := filter.duplicateBars.value;
       |prefix| == (if params.pivots == 0 then 0 else params.pivots - 1)
       && forall i :: 0 <= i < |prefix| ==> p[i].bar == prefix[i]
  }

  predicate Allowed(id: int, allowed: Option<seq<int>>) {
    allowed.Some? && allowed.value != [] ==> id in allowed.value
  }

  predicate LastDirectionOk(id: int, p: seq<Pivot>, filter: WindowFilter, params: Params)
    requires |p| >= 5 && (params.pivots == 6 ==> |p| >= 6)
  {
    filter.lastPivotDirections.Some? ==>
      var dirs := filter.lastPivotDirections.value;
      var required := if 0 <= id < |dirs| then dirs[id] else 0;
      var last, prev := LastOf(p, params).price, if params.pivots == 6 then p[4].price else p[3].price;
      required == 0 || required == (if last > prev then 1 else if last < prev then -1 else 0)
  }

  /** The close of the newest bar lies inside the drawn channel. */
  predicate EntryInChannel(scan: Scan, p: seq<Pivot>, bars: Bars)
    requires |p| == 5 || |p| >= 6
  {
    exists newest :: newest in bars && (forall b :: b in bars ==> b <= newest)
      && var h := DrawingHints(scan, p);
         var up := LinePriceAt(h.upper1, h.upper2, newest);
         var low := LinePriceAt(h.lower1, h.lower2, newest);
         && up.Some? && low.Some?
         && Min(up.value, low.value) <= bars[newest].close <= Max(up.value, low.value)
  }

  /** `try_scan_six_window`.  It indexes the first five pivots, so it needs a window of at least five. */
  function TryScan(p: seq<Pivot>, bars: Bars, params: Params, allowed: Option<seq<int>>, filter: WindowFilter)
    : Result<Scan, RejectCode>
    requires params.pivots >= 5
  {
    if |p| != params.pivots then Err(InsufficientPivots)
    else if !Alternating(p) then Err(PivotAlternation)
    else if !CheckBarRatio(p[0].bar, p[2].bar, p[4].bar, params.barRatioEnabled, params.barRatioLimit) then
      Err(BarRatioUpper)
    else if params.pivots == 6
            && !CheckBarRatio(p[1].bar, p[3].bar, p[5].bar, params.barRatioEnabled, params.barRatioLimit) then
      Err(BarRatioLower)
    else if !SizeOk(p, params.size) then Err(SizeFilter)
    else if Overlaps(p, filter) then Err(OverlapIgnored)
    else if Duplicates(p, filter, params) then Err(DuplicatePivotWindow)
    else if !PickBest(At(p[0]), At(p[2]), At(p[4]), params.upperDirection, bars, params.scoreRatioMax).ok then
      Err(InspectUpper)
    else if !(if params.pivots == 6
              then PickBest(At(p[1]), At(p[3]), At(p[5]), params.lowerDirection, bars, params.scoreRatioMax).ok
              else InspectTwo(At(p[1]), At(p[3]), params.lowerDirection, bars, params.scoreRatioMax).ok) then
      Err(InspectLower)
    else
      match ScanPivots(p, bars, params)
      case None => Err(InspectLower)
      case Some(scan) =>
        if !Allowed(scan.patternTypeId, allowed) then Err(PatternNotAllowed)
        else if !LastDirectionOk(scan.patternTypeId, p, filter, params) then Err(LastPivotDirection)
        else if params.ignoreIfEntryCrossed && !EntryInChannel(scan, p, bars) then Err(EntryNotInChannel)
        else Ok(scan)
  }

  /** The optional filters, all of them, on a finished scan. */
  predicate PassesFilters(scan: Scan, p: seq<Pivot>, bars: Bars, params: Params, allowed: Option<seq<int>>, filter: WindowFilter)
    requires |p| == params.pivots >= 5
  {
    && SizeOk(p, params.size) && !Overlaps(p, filter) && !Duplicates(p, filter, params)
    && Allowed(scan.patternTypeId, allowed) && LastDirectionOk(scan.patternTypeId, p, filter, params)
    && (params.ignoreIfEntryCrossed ==> EntryInChannel(scan, p, bars))
  }

  /** The filtering scanner accepts exactly the scans of the plain one that pass the filters, and reports
      them unchanged, whatever the filters and the spacing of the pivots. */
  lemma TryScanIsFilteredScan(p: seq<Pivot>, bars: Bars, params: Params, allowed: Option<seq<int>>, filter: WindowFilter, s: Scan)
    requires params.pivots >= 5
    ensures TryScan(p, bars, params, allowed, filter) == Ok(s)
       <==> ScanPivots(p, bars, params) == Some(s) && PassesFilters(s, p, bars, params, allowed, filter)
  {
    hide PickBest, Inspect, Resolve, SizeOk, EntryInChannel;
  }

  /** A range given in either order holds the bar strictly inside. */
  predicate Inside(bar: int, r: (int, int)) { r.0 < bar < r.1 || r.1 < bar < r.0 }

  /** What the filters ask of a found channel, one by one: it starts inside none of the ranges to avoid, does not begin
      with the bars of the window to skip, has an allowed id, ends in the direction wanted for that id, and, if asked
      for, the newest close lies between its two lines. */
  lemma FiltersInFull(p: seq<Pivot>, bars: Bars, params: Params, allowed: Option<seq<int>>, filter: WindowFilter, s: Scan)
    requires params.pivots >= 5 && ScanPivots(p, bars, params) == Some(s)
    ensures var n, h := |p|, DrawingHints(s, p);
            TryScan(p, bars, params, allowed, filter) == Ok(s) <==>
              && SizeOk(p, params.size)
              && (filter.avoidOverlap ==>
                    forall i :: 0 <= i < |filter.existingRanges| ==> !Inside(p[0].bar, filter.existingRanges[i]))
              && filter.duplicateBars != Some(seq(n - 1, i requires 0 <= i < n - 1 => p[i].bar))
              && (allowed.None? || allowed.value == [] || s.patternTypeId in allowed.value)
              && (filter.lastPivotDirections.Some? && 0 <= s.patternTypeId < |filter.lastPivotDirections.value| ==>
                    var d := filter.lastPivotDirections.value[s.patternTypeId];
                    d == 0 || (d == 1 && p[n - 1].price > p[n - 2].price) || (d == -1 && p[n - 1].price < p[n - 2].price))
              && (params.ignoreIfEntryCrossed ==>
                    exists newest :: newest in bars && (forall b :: b in bars ==> b <= newest) && Between(h, newest, bars[newest].close))
  {
    TryScanIsFilteredScan(p, bars, params, allowed, filter, s);
    OverlapsIff(p, filter);
    DuplicatesIff(p, filter, params);
    LastDirectionIff(s.patternTypeId, p, filter, params);
    EntryIff(s, p, bars);
    hide TryScan, ScanPivots, SizeOk, Overlaps, Duplicates, LastDirectionOk, EntryInChannel, Between, DrawingHints;
  }

  /** The price lies between the two drawn lines at the bar. */
  predicate Between(h: Hints, bar: int, price: real) {
    var up, low := LinePriceAt(h.upper1, h.upper2, bar), LinePriceAt(h.lower1, h.lower2, bar);
    up.Some? && low.Some? && (up.value <= price <= low.value || low.value <= price <= up.value)
  }

  lemma OverlapsIff(p: seq<Pivot>, filter: WindowFilter)
    requires p != []
    ensures !Overlaps(p, filter) <==>
              (filter.avoidOverlap ==> forall i :: 0 <= i < |filter.existingRanges| ==> !Inside(p[0].bar, filter.existingRanges[i]))
  {
    forall i | 0 <= i < |filter.existingRanges|
      ensures var r := filter.existingRanges[i]; Inside(p[0].bar, r) <==> MinInt(r.0, r.1) < p[0].bar < MaxInt(r.0, r.1)
    {
    }
  }

  lemma DuplicatesIff(p: seq<Pivot>, filter: WindowFilter, params: Params)
    requires |p| == params.pivots > 0
    ensures Duplicates(p, filter, params) <==>
              filter.duplicateBars == Some(seq(|p| - 1, i requires 0 <= i < |p| - 1 => p[i].bar))
  {
    if Duplicates(p, filter, params) {
      assert filter.duplicateBars.value == seq(|p| - 1, i requires 0 <= i < |p| - 1 => p[i].bar);
    }
  }

  lemma LastDirectionIff(id: int, p: seq<Pivot>, filter: WindowFilter, params: Params)
    requires |p| == params.pivots && (|p| == 5 || |p| == 6)
    ensures var n := |p|;
            LastDirectionOk(id, p, filter, params) <==>
              (filter.lastPivotDirections.Some? && 0 <= id < |filter.lastPivotDirections.value| ==>
                 var d := filter.lastPivotDirections.value[id];
                 d == 0 || (d == 1 && p[n - 1].price > p[n - 2].price) || (d == -1 && p[n - 1].price < p[n - 2].price))
  {
  }

  lemma EntryIff(s: Scan, p: seq<Pivot>, bars: Bars)
    requires |p| == 5 || |p| == 6
    ensures EntryInChannel(s, p, bars) <==>
              exists newest :: newest in bars && (forall b :: b in bars ==> b <= newest)
                && Between(DrawingHints(s, p), newest, bars[newest].close)
  {
    hide DrawingHints, LinePriceAt;
  }

  const NO_FILTER := WindowFilter(false, [], None, None)

  /** With the optional filters off the two scanners agree. */
  lemma ScannersAgree(p: seq<Pivot>, bars: Bars, params: Params, s: Scan)
    requires params.pivots >= 5 && !params.ignoreIfEntryCrossed && !params.size.byBar && !params.size.byPercent
    ensures TryScan(p, bars, params, None, NO_FILTER) == Ok(s) <==> ScanPivots(p, bars, params) == Some(s)
  {
    hide TryScan, ScanPivots;
    TryScanIsFilteredScan(p, bars, params, None, NO_FILTER, s);
  }

  /** On five or six pivots with increasing bars the last fallback never fires: the plain scanner finds a channel
      exactly when the tests and the inspections pass. */
  lemma ScanSucceedsIff(p: seq<Pivot>, bars: Bars, params: Params)
    requires (params.pivots == 5 || params.pivots == 6) && Increasing(p)
    ensures ScanPivots(p, bars, params).Some?
       <==> |p| == params.pivots && Alternating(p) && RatiosOk(p, params)
            && Choose(p, bars, params).upper.ok && Choose(p, bars, params).lower.ok
  {
    hide PickBest, Inspect, Resolve;
  }
}
