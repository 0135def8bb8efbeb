/**
 `resolve_pattern_type_id`: the shape of a channel from the end prices of its two lines.
 Prices are reals.  The thresholds of 1e-15 are kept as a parameter `tiny` of the classifier,
 because they are what breaks its scale invariance.
 */
module ChannelResolve {
  import opened Reals

  const TINY := 0.000000000000001

  /** End prices of one trend line at the first and at the last bar of the pattern. */
  datatype Line = Line(p1: real, p2: real)

  /** `f64::signum`, with `signum(0.0) == 1.0`. */
  function Signum(x: real): int { if x >= 0.0 then 1 else -1 }

  function UpperDir(angle: real, flat: real): int {
    if angle > 1.0 + flat then 1 else if angle < 1.0 - flat then -1 else 0
  }

  function LowerDir(angle: real, flat: real): int {
    if angle > 1.0 + flat then -1 else if angle < 1.0 - flat then 1 else 0
  }

  /** The final table: ids 1..13, with the negative "unreachable" arms of the source. */
  function Table(up: int, low: int, channel: bool, expanding: bool, contracting: bool): int {
    if channel then
      if up > 0 && low > 0 then 1 else if up < 0 && low < 0 then 2 else 3
    else if expanding then
      if up > 0 && low > 0 then 4
      else if up < 0 && low < 0 then 5
      else if up > 0 && low < 0 then 6
      else if up > 0 && low == 0 then 7
      else if up == 0 && low < 0 then 8
      else -2
    else if contracting then
      if up > 0 && low > 0 then 9
      else if up < 0 && low < 0 then 10
      else if up < 0 && low > 0 then 11
      else if low == 0 then (if up < 0 then 12 else 1)
      else if up == 0 then (if low > 0 then 13 else 2)
      else -3
    else -4
  }

  /** The source's infinite convergence horizon is the first two disjuncts. */
  predicate FarAway(tiny: real, startDiff: real, endDiff: real, bd: real)
    requires bd != 0.0
  {
    var priceDiff := Abs(startDiff - endDiff) / bd;
    Abs(priceDiff) < tiny || priceDiff == 0.0 || Min(startDiff, endDiff) / priceDiff > 2.0 * bd
  }

  /** From the two line directions to the id. */
  function Conclude(tiny: real, up: int, low: int, t1: Line, t2: Line, bd: real): int
    requires bd != 0.0
  {
    var startDiff := Abs(t1.p1 - t2.p1);
    var endDiff := Abs(t1.p2 - t2.p2);
    var expanding := endDiff > startDiff;
    var contracting := endDiff < startDiff;
    var channel :=
      FarAway(tiny, startDiff, endDiff, bd) || (!expanding && !contracting) || (up == 0 && low == 0);
    var invalid := Signum(t1.p1 - t2.p1) != Signum(t1.p2 - t2.p2);
    var patternType := if invalid then 0 else Table(up, low, channel, expanding, contracting);
    if patternType < 0 then 0 else patternType
  }

  function ResolveAt(tiny: real, t1: Line, t2: Line, barDiff: int, flat: real): int {
    if barDiff == 0 then 0 else
    var t1LeftHigher := t1.p1 > t2.p1;
    var upperDen := if t1LeftHigher then t1.p1 - Min(t2.p1, t2.p2) else t2.p1 - Min(t1.p1, t1.p2);
    if Abs(upperDen) < tiny || upperDen == 0.0 then 0 else
    var upperAngle :=
      if t1LeftHigher then (t1.p2 - Min(t2.p1, t2.p2)) / upperDen else (t2.p2 - Min(t1.p1, t1.p2)) / upperDen;
    var lowerDen := if t1LeftHigher then t2.p1 - Max(t1.p1, t1.p2) else t1.p1 - Max(t2.p1, t2.p2);
    if Abs(lowerDen) < tiny || lowerDen == 0.0 then 0 else
    var lowerAngle :=
      if t1LeftHigher then (t2.p2 - Max(t1.p1, t1.p2)) / lowerDen else (t1.p2 - Max(t2.p1, t2.p2)) / lowerDen;
    Conclude(tiny, UpperDir(upperAngle, flat), LowerDir(lowerAngle, flat), t1, t2, barDiff as real)
  }

  function Resolve(t1: Line, t2: Line, barDiff: int, flat: real): int {
    ResolveAt(TINY, t1, t2, barDiff, flat)
  }

  // ---------------------------------------------------------------------------
  // Geometry
  // ---------------------------------------------------------------------------

  /** Starts above and does not end below. */
  predicate Above(u: Line, l: Line) { u.p1 > l.p1 && u.p2 >= l.p2 }

  /** What the classifier takes for two lines in one order.  Lines that meet at the last bar only pass when the
      upper one comes first, because `signum(0.0)` is 1. */
  predicate Ordered(t1: Line, t2: Line) {
    Above(t1, t2) || (t1.p1 < t2.p1 && t1.p2 < t2.p2)
  }

  function Upper(t1: Line, t2: Line): Line { if t1.p1 > t2.p1 then t1 else t2 }
  function Lower(t1: Line, t2: Line): Line { if t1.p1 > t2.p1 then t2 else t1 }

  function Rise(t: Line): real { t.p2 - t.p1 }
  function StartGap(u: Line, l: Line): real { u.p1 - l.p1 }
  function EndGap(u: Line, l: Line): real { u.p2 - l.p2 }

  /** Room from the upper line's start down to the lowest end of the lower line, and its mirror image. */
  function RoomBelow(u: Line, l: Line): real { u.p1 - Min(l.p1, l.p2) }
  function RoomAbove(u: Line, l: Line): real { Max(u.p1, u.p2) - l.p1 }

  predicate Thin(tiny: real, u: Line, l: Line) { RoomBelow(u, l) < tiny || RoomAbove(u, l) < tiny }

  /** The direction in which a move passes a threshold, or 0. */
  function Past(move: real, threshold: real): int {
    if move > threshold then 1 else if move < -threshold then -1 else 0
  }

  /** A line trends when it moves by more than `flat` times the room it is measured against. */
  function UpTrend(u: Line, l: Line, flat: real): int { Past(Rise(u), Times(flat, RoomBelow(u, l))) }
  function LowTrend(u: Line, l: Line, flat: real): int { Past(Rise(l), Times(flat, RoomAbove(u, l))) }

  /** The gap changes by less than half of its narrow end, or by less than `slack`. */
  predicate Close(s: real, e: real, slack: real) {
    Min(s, e) > 2.0 * Abs(s - e) || Abs(s - e) < slack
  }

  predicate Parallel(tiny: real, u: Line, l: Line, barDiff: int) {
    Close(StartGap(u, l), EndGap(u, l), Times(tiny, barDiff as real))
  }

  /** What the id depends on: the two trends, and how the gap between the ordered lines behaves. */
  datatype Facts = Facts(up: int, low: int, thin: bool, parallel: bool, growing: bool, shrinking: bool)

  function FactsOf(tiny: real, u: Line, l: Line, barDiff: int, flat: real): Facts {
    Facts(UpTrend(u, l, flat), LowTrend(u, l, flat),
          Thin(tiny, u, l),
          Parallel(tiny, u, l, barDiff),
          EndGap(u, l) > StartGap(u, l), EndGap(u, l) < StartGap(u, l))
  }

  function Raw(f: Facts): int {
    Table(f.up, f.low, f.parallel || (!f.growing && !f.shrinking) || (f.up == 0 && f.low == 0), f.growing, f.shrinking)
  }

  function Name(f: Facts): int {
    if f.thin || Raw(f) < 0 then 0 else Raw(f)
  }

  /** The classification of ordered lines, free of divisions. */
  function Shape(tiny: real, u: Line, l: Line, barDiff: int, flat: real): int {
    Name(FactsOf(tiny, u, l, barDiff, flat))
  }

  // ---------------------------------------------------------------------------
  // Removing the divisions
  // ---------------------------------------------------------------------------

  /** The angle `(move + room) / room` passes `1 +- flat` exactly when the move passes `flat * room`. */
  lemma AngleIsPast(move: real, room: real, flat: real)
    requires room > 0.0
    ensures UpperDir((move + room) / room, flat) == Past(move, Times(flat, room))
  {
    Quotient(move + room, room, 1.0 + flat);
    Quotient(move + room, room, 1.0 - flat);
    assert (1.0 + flat) * room == room + flat * room && (1.0 - flat) * room == room - flat * room;
  }

  lemma AngleIsPastBelow(move: real, room: real, flat: real)
    requires room > 0.0 && flat >= 0.0
    ensures LowerDir((move - room) / -room, flat) == Past(move, Times(flat, room))
  {
    QuotientNeg(move - room, -room, 1.0 + flat);
    QuotientNeg(move - room, -room, 1.0 - flat);
    assert (1.0 + flat) * -room == -room - flat * room && (1.0 - flat) * -room == -room + flat * room;
    assert flat * room >= 0.0;
  }

  lemma UpperDirIsTrend(u: Line, l: Line, flat: real)
    requires u.p1 > l.p1
    ensures UpperDir((u.p2 - Min(l.p1, l.p2)) / (u.p1 - Min(l.p1, l.p2)), flat) == UpTrend(u, l, flat)
  {
    hide Times, UpperDir, Past;
    AngleIsPast(Rise(u), RoomBelow(u, l), flat);
    assert Rise(u) + RoomBelow(u, l) == u.p2 - Min(l.p1, l.p2);
  }

  lemma LowerDirIsTrend(u: Line, l: Line, flat: real)
    requires u.p1 > l.p1 && flat >= 0.0
    ensures LowerDir((l.p2 - Max(u.p1, u.p2)) / (l.p1 - Max(u.p1, u.p2)), flat) == LowTrend(u, l, flat)
  {
    hide Times, LowerDir, Past;
    AngleIsPastBelow(Rise(l), RoomAbove(u, l), flat);
    assert Rise(l) - RoomAbove(u, l) == l.p2 - Max(u.p1, u.p2);
    assert -RoomAbove(u, l) == l.p1 - Max(u.p1, u.p2);
  }

  lemma FarAwayIsClose(tiny: real, startDiff: real, endDiff: real, bd: real)
    requires tiny >= 0.0 && startDiff > 0.0 && endDiff >= 0.0 && bd > 0.0
    ensures FarAway(tiny, startDiff, endDiff, bd) <==> Close(startDiff, endDiff, Times(tiny, bd))
  {
    var gap, change := Min(startDiff, endDiff), Abs(startDiff - endDiff);
    var pd := change / bd;
    assert pd * bd == change;
    Quotient(change, bd, tiny);
    if pd > 0.0 {
      Quotient(gap, pd, 2.0 * bd);
      assert 2.0 * bd * pd == 2.0 * change;
    }
  }

  lemma ConcludeIsRaw(tiny: real, up: int, low: int, t1: Line, t2: Line, barDiff: int)
    requires Ordered(t1, t2) && barDiff > 0 && tiny >= 0.0
    ensures var u, l := Upper(t1, t2), Lower(t1, t2);
            var id := Raw(Facts(up, low, false, Parallel(tiny, u, l, barDiff),
                                EndGap(u, l) > StartGap(u, l), EndGap(u, l) < StartGap(u, l)));
            Conclude(tiny, up, low, t1, t2, barDiff as real) == if id < 0 then 0 else id
  {
    hide Times, FarAway, Close, Table;
    FarAwayIsClose(tiny, Abs(t1.p1 - t2.p1), Abs(t1.p2 - t2.p2), barDiff as real);
  }

  /** Lines in no order get no shape: crossing lines fail the test of signs, and of two lines with one start either
      the signs differ or a denominator is zero. */
  lemma UnorderedIsShapeless(tiny: real, t1: Line, t2: Line, barDiff: int, flat: real)
    requires !Ordered(t1, t2) && barDiff > 0
    ensures ResolveAt(tiny, t1, t2, barDiff, flat) == 0
  {
    hide UpperDir, LowerDir, FarAway, Table;
  }

  /** The classifier computes the division-free shape of the ordered lines, and 0 for lines in no order. */
  lemma ResolveIsShape(tiny: real, t1: Line, t2: Line, barDiff: int, flat: real)
    requires barDiff > 0 && tiny >= 0.0 && flat >= 0.0
    ensures ResolveAt(tiny, t1, t2, barDiff, flat)
         == if Ordered(t1, t2) then Shape(tiny, Upper(t1, t2), Lower(t1, t2), barDiff, flat) else 0
  {
    if !Ordered(t1, t2) {
      UnorderedIsShapeless(tiny, t1, t2, barDiff, flat);
      return;
    }
    hide UpTrend, LowTrend, Conclude, UpperDir, LowerDir, Parallel, Raw;
    var u, l := Upper(t1, t2), Lower(t1, t2);
    UpperDirIsTrend(u, l, flat);
    LowerDirIsTrend(u, l, flat);
    ConcludeIsRaw(tiny, UpTrend(u, l, flat), LowTrend(u, l, flat), t1, t2, barDiff);
  }

  // ---------------------------------------------------------------------------
  // What the trends force
  // ---------------------------------------------------------------------------

  lemma RoomsHoldGap(u: Line, l: Line)
    ensures RoomBelow(u, l) >= StartGap(u, l) && RoomAbove(u, l) >= StartGap(u, l)
    ensures Rise(l) >= 0.0 ==> RoomBelow(u, l) == StartGap(u, l)
    ensures Rise(u) <= 0.0 ==> RoomAbove(u, l) == StartGap(u, l)
  {
  }

  /** The two thresholds, and when they are measured against the start gap itself. */
  lemma Thresholds(u: Line, l: Line, flat: real)
    requires u.p1 > l.p1 && flat >= 0.0
    ensures Times(flat, RoomBelow(u, l)) >= Times(flat, StartGap(u, l)) >= 0.0
    ensures Times(flat, RoomAbove(u, l)) >= Times(flat, StartGap(u, l))
    ensures Rise(l) >= 0.0 ==> Times(flat, RoomBelow(u, l)) == Times(flat, StartGap(u, l))
    ensures Rise(u) <= 0.0 ==> Times(flat, RoomAbove(u, l)) == Times(flat, StartGap(u, l))
  {
    hide Times, RoomBelow, RoomAbove;
    RoomsHoldGap(u, l);
    TimesMono(flat, StartGap(u, l), RoomBelow(u, l));
    TimesMono(flat, StartGap(u, l), RoomAbove(u, l));
    TimesMono(flat, 0.0, StartGap(u, l));
    TimesUnits(flat);
  }

  /** A trend has the sign of its move. */
  lemma TrendSign(u: Line, l: Line, flat: real)
    requires u.p1 > l.p1 && flat >= 0.0
    ensures UpTrend(u, l, flat) > 0 ==> Rise(u) > 0.0
    ensures UpTrend(u, l, flat) < 0 ==> Rise(u) < 0.0
    ensures LowTrend(u, l, flat) > 0 ==> Rise(l) > 0.0
    ensures LowTrend(u, l, flat) < 0 ==> Rise(l) < 0.0
  {
    hide Times, RoomBelow, RoomAbove, Rise;
    Thresholds(u, l, flat);
  }

  /** When the gap grows the lower line cannot out-trend the upper one. */
  lemma GrowingGap(u: Line, l: Line, flat: real)
    requires Above(u, l) && flat >= 0.0 && EndGap(u, l) > StartGap(u, l)
    ensures LowTrend(u, l, flat) <= UpTrend(u, l, flat)
  {
    hide Times, RoomBelow, RoomAbove;
    Thresholds(u, l, flat);
  }

  /** When the gap shrinks no upper line rises over a falling lower one. */
  lemma ShrinkingGap(u: Line, l: Line, flat: real)
    requires Above(u, l) && flat >= 0.0 && EndGap(u, l) < StartGap(u, l)
    ensures !(UpTrend(u, l, flat) > 0 && LowTrend(u, l, flat) < 0)
  {
    hide UpTrend, LowTrend;
    TrendSign(u, l, flat);
  }

  // ---------------------------------------------------------------------------
  // Exhaustiveness
  // ---------------------------------------------------------------------------

  lemma TrendRange(u: Line, l: Line, flat: real)
    ensures UpTrend(u, l, flat) in {-1, 0, 1} && LowTrend(u, l, flat) in {-1, 0, 1}
  {
    hide Times;
  }

  lemma RawIsTotal(tiny: real, u: Line, l: Line, barDiff: int, flat: real)
    requires Above(u, l) && flat >= 0.0
    ensures 1 <= Raw(FactsOf(tiny, u, l, barDiff, flat)) <= 13
  {
    hide UpTrend, LowTrend, Parallel;
    TrendRange(u, l, flat);
    if EndGap(u, l) > StartGap(u, l) {
      GrowingGap(u, l, flat);
    } else if EndGap(u, l) < StartGap(u, l) {
      ShrinkingGap(u, l, flat);
    }
  }

  /** The negative arms are unreachable: any two lines get one of the thirteen ids exactly when they are ordered and
      both denominators reach 1e-15, and otherwise 0. */
  lemma EveryChannelHasAShape(t1: Line, t2: Line, barDiff: int, flat: real)
    requires barDiff > 0 && flat >= 0.0
    ensures var id := Resolve(t1, t2, barDiff, flat);
            if Ordered(t1, t2) && !Thin(TINY, Upper(t1, t2), Lower(t1, t2)) then 1 <= id <= 13 else id == 0
  {
    hide ResolveAt, Raw, UpTrend, LowTrend, Parallel;
    ResolveIsShape(TINY, t1, t2, barDiff, flat);
    if Ordered(t1, t2) {
      RawIsTotal(TINY, Upper(t1, t2), Lower(t1, t2), barDiff, flat);
    }
  }

  // ---------------------------------------------------------------------------
  // Geometric meaning
  // ---------------------------------------------------------------------------

  /** What each id says about the picture: which line rises or falls, and by how much the gap changes. */
  predicate Depicts(id: int, u: Line, l: Line) {
    && (id in {1, 4, 9} ==> Rise(u) > 0.0 && Rise(l) > 0.0)
    && (id in {2, 5, 10} ==> Rise(u) < 0.0 && Rise(l) < 0.0)
    && (id == 6 ==> Rise(u) > 0.0 && Rise(l) < 0.0)
    && (id == 7 ==> Rise(u) > 0.0) && (id == 8 ==> Rise(l) < 0.0)
    && (id == 11 ==> Rise(u) < 0.0 && Rise(l) > 0.0)
    && (id == 12 ==> Rise(u) < 0.0) && (id == 13 ==> Rise(l) > 0.0)
    && (4 <= id <= 8 ==> 2.0 * EndGap(u, l) >= 3.0 * StartGap(u, l))
    && (9 <= id <= 13 ==> 3.0 * EndGap(u, l) <= 2.0 * StartGap(u, l))
  }

  /** The contracting branch reaches its two fallback arms (ids 1 and 2). */
  predicate Fallback(tiny: real, u: Line, l: Line, barDiff: int, flat: real) {
    && EndGap(u, l) < StartGap(u, l) && !Parallel(tiny, u, l, barDiff)
    && (|| (LowTrend(u, l, flat) == 0 && UpTrend(u, l, flat) > 0)
        || (UpTrend(u, l, flat) == 0 && LowTrend(u, l, flat) < 0))
  }

  /** A flat line under a trending one shrinks the gap by less than a third of it when `3 * flat^2 <= 1`.
      Here `g` is the start gap, `du` and `dl` the two moves. */
  lemma FlatUnderTrendShrinksLittle(g: real, du: real, dl: real, flat: real)
    requires g > 0.0 && flat >= 0.0 && 3.0 * Times(flat, flat) <= 1.0
    requires du > Times(flat, g) && dl <= Times(flat, g + du)
    ensures 3.0 * (dl - du) < g
  {
    hide Times;
    var a, b, rest := Times(flat, g), Times(flat, du), 1.0 - flat;
    var square := Times(flat, flat);
    TimesUnits(flat);
    assert flat < 1.0 by {
      if flat >= 1.0 { TimesMono(flat, 1.0, flat); }
    }
    assert dl <= a + b by { TimesPlus(flat, g, du); }
    assert du - b > a - Times(flat, a) by {
      TimesLess(rest, a, du);
      RestOf(flat, a);
      RestOf(flat, du);
    }
    assert Times(flat, a) == Times(square, g) by { TimesSwap(flat, flat, g); }
    assert 3.0 * Times(square, g) <= g by {
      TimesMono(g, square, 1.0 / 3.0);
      ThirdOf(g, square);
    }
  }

  lemma RestOf(flat: real, x: real)
    ensures Times(1.0 - flat, x) == x - Times(flat, x)
  {
  }

  lemma ThirdOf(g: real, square: real)
    ensures 3.0 * Times(g, 1.0 / 3.0) == g && Times(g, square) == Times(square, g)
  {
  }

  lemma FallbackNeedsSteepRatio(tiny: real, u: Line, l: Line, barDiff: int, flat: real)
    requires Above(u, l) && flat >= 0.0 && 3.0 * Times(flat, flat) <= 1.0
    ensures !Fallback(tiny, u, l, barDiff, flat)
  {
    hide Times;
    if Fallback(tiny, u, l, barDiff, flat) {
      TrendSign(u, l, flat);
      Thresholds(u, l, flat);
      assert 3.0 * (Rise(l) - Rise(u)) >= StartGap(u, l);
      if UpTrend(u, l, flat) > 0 {
        assert RoomAbove(u, l) == StartGap(u, l) + Rise(u);
        FlatUnderTrendShrinksLittle(StartGap(u, l), Rise(u), Rise(l), flat);
      } else {
        assert RoomBelow(u, l) == StartGap(u, l) - Rise(l);
        FlatUnderTrendShrinksLittle(StartGap(u, l), -Rise(l), -Rise(u), flat);
      }
    }
  }

  lemma GapOfShape(tiny: real, u: Line, l: Line, barDiff: int, flat: real)
    requires Above(u, l) && tiny >= 0.0 && barDiff > 0
    ensures var id := Raw(FactsOf(tiny, u, l, barDiff, flat));
            && (4 <= id <= 8 ==> 2.0 * EndGap(u, l) >= 3.0 * StartGap(u, l))
            && (9 <= id <= 13 ==> 3.0 * EndGap(u, l) <= 2.0 * StartGap(u, l))
  {
    hide UpTrend, LowTrend, Times;
  }

  /** Every id is geometrically sound, for every two lines and every flat ratio. */
  lemma ShapesAreSound(t1: Line, t2: Line, barDiff: int, flat: real)
    requires barDiff > 0 && flat >= 0.0
    ensures Depicts(Resolve(t1, t2, barDiff, flat), Upper(t1, t2), Lower(t1, t2))
  {
    var u, l := Upper(t1, t2), Lower(t1, t2);
    hide ResolveAt, UpTrend, LowTrend, Parallel;
    ResolveIsShape(TINY, t1, t2, barDiff, flat);
    if Ordered(t1, t2) {
      TrendSign(u, l, flat);
      TrendRange(u, l, flat);
      GapOfShape(TINY, u, l, barDiff, flat);
    }
  }

  /** A line trends up or down when it moves by more than `flat` times the room on its side, and is level otherwise. */
  predicate Rises(move: real, room: real, flat: real) { move > Times(flat, room) }
  predicate Falls(move: real, room: real, flat: real) { move < -Times(flat, room) }
  predicate Level(move: real, room: real, flat: real) { !Rises(move, room, flat) && !Falls(move, room, flat) }

  lemma TrendsOf(u: Line, l: Line, flat: real)
    requires Above(u, l) && flat >= 0.0
    ensures UpTrend(u, l, flat) == if Rises(Rise(u), RoomBelow(u, l), flat) then 1
                                   else if Falls(Rise(u), RoomBelow(u, l), flat) then -1 else 0
    ensures LowTrend(u, l, flat) == if Rises(Rise(l), RoomAbove(u, l), flat) then 1
                                    else if Falls(Rise(l), RoomAbove(u, l), flat) then -1 else 0
    ensures !(Rises(Rise(u), RoomBelow(u, l), flat) && Falls(Rise(u), RoomBelow(u, l), flat))
    ensures !(Rises(Rise(l), RoomAbove(u, l), flat) && Falls(Rise(l), RoomAbove(u, l), flat))
  {
    hide Times, RoomBelow, RoomAbove, Rise, StartGap;
    Thresholds(u, l, flat);
  }

  /** The complete meaning of the thirteen ids, in prices alone: for ordered lines that are not thin each id is
      reported exactly for its own picture. */
  lemma ShapeIsReportedIff(t1: Line, t2: Line, barDiff: int, flat: real)
    requires Ordered(t1, t2) && !Thin(TINY, Upper(t1, t2), Lower(t1, t2)) && barDiff > 0 && flat >= 0.0
    ensures var u, l := Upper(t1, t2), Lower(t1, t2);
            var up, low := RoomBelow(u, l), RoomAbove(u, l);
            var s, e := u.p1 - l.p1, u.p2 - l.p2;
            var parallel := || Min(s, e) > 2.0 * Abs(s - e) || Abs(s - e) < Times(TINY, barDiff as real)
                            || (Level(Rise(u), up, flat) && Level(Rise(l), low, flat));
            var widens, narrows := !parallel && e > s, !parallel && e < s;
            var id := Resolve(t1, t2, barDiff, flat);
            && (id == 1 <==> Rises(Rise(u), up, flat)
                             && ((parallel && Rises(Rise(l), low, flat)) || (narrows && Level(Rise(l), low, flat))))
            && (id == 2 <==> Falls(Rise(l), low, flat)
                             && ((parallel && Falls(Rise(u), up, flat)) || (narrows && Level(Rise(u), up, flat))))
            && (id == 3 <==> parallel && !(Rises(Rise(u), up, flat) && Rises(Rise(l), low, flat))
                                      && !(Falls(Rise(u), up, flat) && Falls(Rise(l), low, flat)))
            && (id == 4 <==> widens && Rises(Rise(u), up, flat) && Rises(Rise(l), low, flat))
            && (id == 5 <==> widens && Falls(Rise(u), up, flat) && Falls(Rise(l), low, flat))
            && (id == 6 <==> widens && Rises(Rise(u), up, flat) && Falls(Rise(l), low, flat))
            && (id == 7 <==> widens && Rises(Rise(u), up, flat) && Level(Rise(l), low, flat))
            && (id == 8 <==> widens && Level(Rise(u), up, flat) && Falls(Rise(l), low, flat))
            && (id == 9 <==> narrows && Rises(Rise(u), up, flat) && Rises(Rise(l), low, flat))
            && (id == 10 <==> narrows && Falls(Rise(u), up, flat) && Falls(Rise(l), low, flat))
            && (id == 11 <==> narrows && Falls(Rise(u), up, flat) && Rises(Rise(l), low, flat))
            && (id == 12 <==> narrows && Falls(Rise(u), up, flat) && Level(Rise(l), low, flat))
            && (id == 13 <==> narrows && Level(Rise(u), up, flat) && Rises(Rise(l), low, flat))
  {
    var u, l := Upper(t1, t2), Lower(t1, t2);
    ResolveIsShape(TINY, t1, t2, barDiff, flat);
    assert Above(u, l);
    assert Parallel(TINY, u, l, barDiff) == Close(u.p1 - l.p1, u.p2 - l.p2, Times(TINY, barDiff as real));
    hide ResolveAt, UpTrend, LowTrend, Parallel, Thin, Ordered, Above, Upper, Lower, Rises, Falls, Rise, RoomAbove, RoomBelow, Times;
    TrendsOf(u, l, flat);
    RawIsTotal(TINY, u, l, barDiff, flat);
  }

  /** Moves of a wedge, with start gap 1, that reaches the first fallback arm. */
  lemma WedgeMoves(flat: real) returns (du: real, dl: real)
    requires flat >= 0.0 && 3.0 * Times(flat, flat) > 1.0
    ensures du > flat && 0.0 < dl <= Times(flat, 1.0 + du)
    ensures 1.0 / 3.0 <= dl - du < 1.0
  {
    hide Times;
    var square := Times(flat, flat);
    TimesUnits(flat);
    if flat < 1.0 {
      var e := square - 1.0 / 3.0;
      du := flat + e;
      dl := Times(flat, 1.0 + du);
      TimesPlus(flat, 1.0, du);
      TimesPlus(flat, flat, e);
      assert dl == flat + square + Times(flat, e);
      TimesMono(flat, flat, 1.0);
      TimesMono(flat, 0.0, e);
      TimesLess(e, flat, 1.0);
      TimesUnits(e);
      ThirdOf(e, flat);
    } else {
      du, dl := flat + 1.0, flat + 1.5;
      TimesMono(flat, 1.0, flat);
      TimesPlus(flat, 1.0, du);
      TimesPlus(flat, flat, 1.0);
    }
  }

  lemma WedgeFallsBack(flat: real, du: real, dl: real)
    requires flat >= 0.0 && du > flat && 0.0 < dl <= Times(flat, 1.0 + du)
    requires 1.0 / 3.0 <= dl - du < 1.0
    ensures Above(Line(1.0, 1.0 + du), Line(0.0, dl))
    ensures Fallback(TINY, Line(1.0, 1.0 + du), Line(0.0, dl), 1, flat)
  {
    hide Times;
    var u, l := Line(1.0, 1.0 + du), Line(0.0, dl);
    assert RoomBelow(u, l) == 1.0 && RoomAbove(u, l) == 1.0 + du;
    TimesUnits(flat);
    TimesUnits(TINY);
    assert 1 as real == 1.0;
  }

  /** No ordered lines reach the contracting fallbacks exactly for ratios with `3 * flat^2 <= 1`. */
  lemma FallbackUnreachableIff(flat: real)
    requires flat >= 0.0
    ensures (forall u, l, barDiff: int :: Above(u, l) && barDiff > 0 ==> !Fallback(TINY, u, l, barDiff, flat))
       <==> 3.0 * Times(flat, flat) <= 1.0
  {
    hide Fallback, Above, Times;
    if 3.0 * Times(flat, flat) <= 1.0 {
      forall u, l, barDiff: int | Above(u, l) && barDiff > 0 ensures !Fallback(TINY, u, l, barDiff, flat) {
        FallbackNeedsSteepRatio(TINY, u, l, barDiff, flat);
      }
    } else {
      var du, dl := WedgeMoves(flat);
      WedgeFallsBack(flat, du, dl);
    }
  }

  /** Ids 1 and 2 are named rising and falling channels: the two lines should be nearly parallel. */
  predicate ChannelIsParallel(t1: Line, t2: Line, barDiff: int, flat: real) {
    Resolve(t1, t2, barDiff, flat) in {1, 2} ==> Parallel(TINY, Upper(t1, t2), Lower(t1, t2), barDiff)
  }

  lemma EqualGapsAreParallel(tiny: real, u: Line, l: Line, barDiff: int)
    requires Above(u, l) && EndGap(u, l) == StartGap(u, l)
    ensures Parallel(tiny, u, l, barDiff)
  {
    hide Times;
  }

  lemma UnparallelName(f: Facts)
    requires f.up in {-1, 0, 1} && f.low in {-1, 0, 1} && !(f.growing && f.shrinking)
    requires f.growing || f.shrinking || f.parallel
    ensures Name(f) in {1, 2} && !f.parallel
       <==> && !f.thin && f.shrinking && !f.parallel
            && ((f.low == 0 && f.up > 0) || (f.up == 0 && f.low < 0))
  {
  }

  /** An id of 1 or 2 on lines that are not nearly parallel comes from the fallback arms, and from nowhere else. */
  lemma UnparallelChannelIsFallback(t1: Line, t2: Line, barDiff: int, flat: real)
    requires barDiff > 0 && flat >= 0.0
    ensures var u, l := Upper(t1, t2), Lower(t1, t2);
            !ChannelIsParallel(t1, t2, barDiff, flat)
            <==> Ordered(t1, t2) && Fallback(TINY, u, l, barDiff, flat) && !Thin(TINY, u, l)
  {
    var u, l := Upper(t1, t2), Lower(t1, t2);
    ResolveIsShape(TINY, t1, t2, barDiff, flat);
    if Ordered(t1, t2) {
      assert Above(u, l);
      hide ResolveAt, Name, UpTrend, LowTrend, Parallel, Thin, StartGap, EndGap, Ordered, Above, Upper, Lower;
      TrendRange(u, l, flat);
      if EndGap(u, l) == StartGap(u, l) {
        EqualGapsAreParallel(TINY, u, l, barDiff);
      }
      UnparallelName(FactsOf(TINY, u, l, barDiff, flat));
    }
  }

  lemma WedgeIsWide(du: real, dl: real)
    requires du >= 0.0 && dl >= 0.0
    ensures !Thin(TINY, Line(1.0, 1.0 + du), Line(0.0, dl))
  {
  }

  /** Ids 1 and 2 mean nearly parallel lines, whatever the lines, exactly for ratios with `3 * flat^2 <= 1`. */
  lemma ChannelsAreParallelIff(flat: real)
    requires flat >= 0.0
    ensures (forall t1, t2, barDiff: int :: barDiff > 0 ==> ChannelIsParallel(t1, t2, barDiff, flat))
       <==> 3.0 * Times(flat, flat) <= 1.0
  {
    hide Fallback, Times, ChannelIsParallel, Thin;
    if 3.0 * Times(flat, flat) <= 1.0 {
      forall t1, t2, barDiff: int | barDiff > 0 ensures ChannelIsParallel(t1, t2, barDiff, flat) {
        UnparallelChannelIsFallback(t1, t2, barDiff, flat);
        if Ordered(t1, t2) {
          FallbackNeedsSteepRatio(TINY, Upper(t1, t2), Lower(t1, t2), barDiff, flat);
        }
      }
    } else {
      var du, dl := WedgeMoves(flat);
      var u, l := Line(1.0, 1.0 + du), Line(0.0, dl);
      WedgeFallsBack(flat, du, dl);
      WedgeIsWide(du, dl);
      UnparallelChannelIsFallback(u, l, 1, flat);
      assert !ChannelIsParallel(u, l, 1, flat);
    }
  }

  // ---------------------------------------------------------------------------
  // Symmetries
  // ---------------------------------------------------------------------------

  function Shifted(t: Line, k: real): Line { Line(t.p1 + k, t.p2 + k) }
  function Scaled(t: Line, c: real): Line { Line(Times(c, t.p1), Times(c, t.p2)) }
  function Negated(t: Line): Line { Line(-t.p1, -t.p2) }

  /** The id of the picture turned upside down. */
  function MirrorId(id: int): int {
    match id
    case 1 => 2   case 2 => 1
    case 4 => 5   case 5 => 4
    case 7 => 8   case 8 => 7
    case 9 => 10  case 10 => 9
    case 12 => 13 case 13 => 12
    case _ => id
  }

  /** The lines start apart and meet at the last bar. */
  predicate Apex(t1: Line, t2: Line) { t1.p1 != t2.p1 && t1.p2 == t2.p2 }

  /** Both orders of two lines name one upper and one lower line, unless they start together. */
  lemma SwapKeepsOrder(t1: Line, t2: Line)
    ensures t1.p1 != t2.p1 ==> Upper(t2, t1) == Upper(t1, t2) && Lower(t2, t1) == Lower(t1, t2)
    ensures t1.p1 == t2.p1 ==> !Ordered(t1, t2) && !Ordered(t2, t1)
    ensures Ordered(t1, t2) != Ordered(t2, t1) <==> Apex(t1, t2)
  {
  }

  /** Which line is passed first does not matter, except for lines with a shape that meet at the last bar. */
  lemma SwapKeepsIdIff(t1: Line, t2: Line, barDiff: int, flat: real)
    requires barDiff > 0 && flat >= 0.0
    ensures Resolve(t2, t1, barDiff, flat) == Resolve(t1, t2, barDiff, flat)
       <==> !(Apex(t1, t2) && !Thin(TINY, Upper(t1, t2), Lower(t1, t2)))
  {
    hide Resolve, Shape, Ordered, Upper, Lower, Apex, Thin;
    SwapKeepsOrder(t1, t2);
    EveryChannelHasAShape(t1, t2, barDiff, flat);
    EveryChannelHasAShape(t2, t1, barDiff, flat);
    if Ordered(t1, t2) && Ordered(t2, t1) {
      SwapKeepsId(t1, t2, barDiff, flat);
    }
  }

  lemma SwapKeepsId(t1: Line, t2: Line, barDiff: int, flat: real)
    requires Ordered(t1, t2) && Ordered(t2, t1) && barDiff > 0 && flat >= 0.0
    ensures Resolve(t2, t1, barDiff, flat) == Resolve(t1, t2, barDiff, flat)
  {
    hide ResolveAt, Shape, Ordered, Upper, Lower;
    SwapKeepsOrder(t1, t2);
    ResolveIsShape(TINY, t1, t2, barDiff, flat);
    ResolveIsShape(TINY, t2, t1, barDiff, flat);
  }

  lemma ShiftKeepsFacts(tiny: real, u: Line, l: Line, barDiff: int, flat: real, k: real)
    ensures FactsOf(tiny, Shifted(u, k), Shifted(l, k), barDiff, flat) == FactsOf(tiny, u, l, barDiff, flat)
  {
    hide Times, Past, Close;
    var u', l' := Shifted(u, k), Shifted(l, k);
    assert RoomBelow(u', l') == RoomBelow(u, l) && RoomAbove(u', l') == RoomAbove(u, l);
    assert Rise(u') == Rise(u) && Rise(l') == Rise(l);
    assert StartGap(u', l') == StartGap(u, l) && EndGap(u', l') == EndGap(u, l);
  }

  /** A common price offset does not matter. */
  lemma ShiftKeepsId(t1: Line, t2: Line, barDiff: int, flat: real, k: real)
    requires barDiff > 0 && flat >= 0.0
    ensures Resolve(Shifted(t1, k), Shifted(t2, k), barDiff, flat) == Resolve(t1, t2, barDiff, flat)
  {
    hide ResolveAt, FactsOf, Name;
    ResolveIsShape(TINY, t1, t2, barDiff, flat);
    ResolveIsShape(TINY, Shifted(t1, k), Shifted(t2, k), barDiff, flat);
    ShiftKeepsFacts(TINY, Upper(t1, t2), Lower(t1, t2), barDiff, flat, k);
  }

  lemma PastMirrors(move: real, threshold: real)
    requires threshold >= 0.0
    ensures Past(-move, threshold) == -Past(move, threshold)
  {
  }

  lemma NegationMirrorsFacts(tiny: real, u: Line, l: Line, barDiff: int, flat: real)
    requires Above(u, l) && flat >= 0.0
    ensures var f := FactsOf(tiny, u, l, barDiff, flat);
            FactsOf(tiny, Negated(l), Negated(u), barDiff, flat) == f.(up := -f.low, low := -f.up)
  {
    hide Times, Past, Close;
    var u', l' := Negated(l), Negated(u);
    assert RoomBelow(u', l') == RoomAbove(u, l) && RoomAbove(u', l') == RoomBelow(u, l);
    assert Rise(u') == -Rise(l) && Rise(l') == -Rise(u);
    Thresholds(u, l, flat);
    PastMirrors(Rise(l), Times(flat, RoomAbove(u, l)));
    PastMirrors(Rise(u), Times(flat, RoomBelow(u, l)));
    assert StartGap(u', l') == StartGap(u, l) && EndGap(u', l') == EndGap(u, l);
  }

  lemma NameMirrors(f: Facts)
    requires f.up in {-1, 0, 1} && f.low in {-1, 0, 1} && Raw(f) > 0
    ensures Name(f.(up := -f.low, low := -f.up)) == MirrorId(Name(f))
  {
  }

  lemma NegationKeepsOrder(t1: Line, t2: Line)
    ensures var n1, n2 := Negated(t1), Negated(t2);
            && Ordered(n2, n1) == Ordered(t1, t2)
            && (t1.p1 != t2.p1 ==> Upper(n2, n1) == Negated(Lower(t1, t2)) && Lower(n2, n1) == Negated(Upper(t1, t2)))
            && Apex(n2, n1) == Apex(t1, t2)
            && Thin(TINY, Negated(Lower(t1, t2)), Negated(Upper(t1, t2))) == Thin(TINY, Upper(t1, t2), Lower(t1, t2))
  {
  }

  /** Negating all prices turns the picture upside down, the other line first, and swaps rising with falling shapes. */
  lemma NegatedSwapMirrorsId(t1: Line, t2: Line, barDiff: int, flat: real)
    requires barDiff > 0 && flat >= 0.0
    ensures Resolve(Negated(t2), Negated(t1), barDiff, flat) == MirrorId(Resolve(t1, t2, barDiff, flat))
  {
    hide ResolveAt, Raw, Name, UpTrend, LowTrend, Parallel, Thin, Apex, Negated;
    var u, l := Upper(t1, t2), Lower(t1, t2);
    ResolveIsShape(TINY, t1, t2, barDiff, flat);
    ResolveIsShape(TINY, Negated(t2), Negated(t1), barDiff, flat);
    NegationKeepsOrder(t1, t2);
    if Ordered(t1, t2) {
      NegationMirrorsFacts(TINY, u, l, barDiff, flat);
      RawIsTotal(TINY, u, l, barDiff, flat);
      TrendRange(u, l, flat);
      hide MirrorId;
      NameMirrors(FactsOf(TINY, u, l, barDiff, flat));
    }
  }

  lemma MirrorIsInjective(id: int, id': int)
    ensures MirrorId(id) == MirrorId(id') <==> id == id'
  {
  }

  /** With the lines in the order given, negation mirrors the id except for lines with a shape that meet at the
      last bar. */
  lemma NegationMirrorsIdIff(t1: Line, t2: Line, barDiff: int, flat: real)
    requires barDiff > 0 && flat >= 0.0
    ensures Resolve(Negated(t1), Negated(t2), barDiff, flat) == MirrorId(Resolve(t1, t2, barDiff, flat))
       <==> !(Apex(t1, t2) && !Thin(TINY, Upper(t1, t2), Lower(t1, t2)))
  {
    hide Resolve, Thin, Apex, MirrorId, Upper, Lower, Negated;
    NegatedSwapMirrorsId(t2, t1, barDiff, flat);
    SwapKeepsIdIff(t1, t2, barDiff, flat);
    MirrorIsInjective(Resolve(t2, t1, barDiff, flat), Resolve(t1, t2, barDiff, flat));
  }

  const FALLING := Line(10.0, 5.0)
  const RISING := Line(0.0, 5.0)

  lemma ApexTrends()
    ensures Above(FALLING, RISING) && !Ordered(RISING, FALLING)
    ensures UpTrend(FALLING, RISING, 0.2) == -1 && LowTrend(FALLING, RISING, 0.2) == 1
    ensures !Thin(TINY, FALLING, RISING) && EndGap(FALLING, RISING) < StartGap(FALLING, RISING)
    ensures !Parallel(TINY, FALLING, RISING, 10)
  {
  }

  lemma ConvergingTriangle(u: Line, l: Line, barDiff: int, flat: real)
    requires Above(u, l) && barDiff > 0 && flat >= 0.0
    requires UpTrend(u, l, flat) == -1 && LowTrend(u, l, flat) == 1
    requires !Thin(TINY, u, l) && EndGap(u, l) < StartGap(u, l) && !Parallel(TINY, u, l, barDiff)
    ensures Resolve(u, l, barDiff, flat) == 11
  {
    hide ResolveAt, UpTrend, LowTrend, Thin, EndGap, StartGap, Parallel;
    ResolveIsShape(TINY, u, l, barDiff, flat);
  }

  /** A triangle closing at the last bar is one only with its upper line first. */
  lemma ApexDependsOnOrder()
    ensures Resolve(FALLING, RISING, 10, 0.2) == 11 && Resolve(RISING, FALLING, 10, 0.2) == 0
  {
    hide *;
    ApexTrends();
    ConvergingTriangle(FALLING, RISING, 10, 0.2);
    EveryChannelHasAShape(RISING, FALLING, 10, 0.2);
  }

  lemma MinMaxScale(a: real, b: real, c: real)
    requires c > 0.0
    ensures Min(Times(c, a), Times(c, b)) == Times(c, Min(a, b))
    ensures Max(Times(c, a), Times(c, b)) == Times(c, Max(a, b))
    ensures Abs(Times(c, a)) == Times(c, Abs(a))
    ensures Times(c, 2.0 * a) == 2.0 * Times(c, a)
  {
    TimesLess(c, a, b);
    TimesLess(c, b, a);
    TimesLess(c, a, 0.0);
    TimesUnits(c);
  }

  lemma GapsScale(u: Line, l: Line, c: real)
    requires Above(u, l) && c > 0.0
    ensures var u', l' := Scaled(u, c), Scaled(l, c);
            && Rise(u') == Times(c, Rise(u)) && Rise(l') == Times(c, Rise(l))
            && RoomBelow(u', l') == Times(c, RoomBelow(u, l)) && RoomAbove(u', l') == Times(c, RoomAbove(u, l))
            && StartGap(u', l') == Times(c, StartGap(u, l)) && EndGap(u', l') == Times(c, EndGap(u, l))
  {
    hide Times, Min, Max;
    TimesMinus(c, u.p2, u.p1);
    TimesMinus(c, l.p2, l.p1);
    TimesMinus(c, u.p1, l.p1);
    TimesMinus(c, u.p2, l.p2);
    MinMaxScale(l.p1, l.p2, c);
    MinMaxScale(u.p1, u.p2, c);
    TimesMinus(c, u.p1, Min(l.p1, l.p2));
    TimesMinus(c, Max(u.p1, u.p2), l.p1);
  }

  lemma PastScales(move: real, threshold: real, c: real)
    requires c > 0.0
    ensures Past(Times(c, move), Times(c, threshold)) == Past(move, threshold)
  {
    hide Times;
    TimesLess(c, threshold, move);
    TimesLess(c, move, -threshold);
    TimesMinus(c, 0.0, threshold);
    TimesUnits(c);
    assert 0.0 - threshold == -threshold;
  }

  lemma CloseScales(s: real, e: real, slack: real, c: real)
    requires c > 0.0
    ensures Close(Times(c, s), Times(c, e), Times(c, slack)) == Close(s, e, slack)
  {
    hide Times, Min, Abs;
    var min, change := Min(s, e), Abs(s - e);
    MinMaxScale(s, e, c);
    MinMaxScale(s - e, 0.0, c);
    TimesMinus(c, s, e);
    MinMaxScale(change, 0.0, c);
    TimesLess(c, 2.0 * change, min);
    TimesLess(c, change, slack);
  }

  lemma ScaleKeepsFacts(tiny: real, u: Line, l: Line, barDiff: int, flat: real, c: real)
    requires Above(u, l) && c > 0.0
    ensures FactsOf(Times(c, tiny), Scaled(u, c), Scaled(l, c), barDiff, flat) == FactsOf(tiny, u, l, barDiff, flat)
  {
    hide Times, Past, Close, RoomBelow, RoomAbove, Rise, StartGap, EndGap, Scaled;
    GapsScale(u, l, c);
    TimesSwap(flat, c, RoomBelow(u, l));
    TimesSwap(flat, c, RoomAbove(u, l));
    PastScales(Rise(u), Times(flat, RoomBelow(u, l)), c);
    PastScales(Rise(l), Times(flat, RoomAbove(u, l)), c);
    TimesLess(c, RoomBelow(u, l), tiny);
    TimesLess(c, RoomAbove(u, l), tiny);
    TimesLess(c, StartGap(u, l), EndGap(u, l));
    TimesLess(c, EndGap(u, l), StartGap(u, l));
    TimesSwap(c, tiny, barDiff as real);
    CloseScales(StartGap(u, l), EndGap(u, l), Times(tiny, barDiff as real), c);
  }

  lemma ScaledKeepsOrder(t1: Line, t2: Line, c: real)
    requires c > 0.0
    ensures var s1, s2 := Scaled(t1, c), Scaled(t2, c);
            Ordered(s1, s2) == Ordered(t1, t2) && Upper(s1, s2) == Scaled(Upper(t1, t2), c) && Lower(s1, s2) == Scaled(Lower(t1, t2), c)
  {
    hide Times;
    TimesLess(c, t1.p1, t2.p1);
    TimesLess(c, t2.p1, t1.p1);
    TimesLess(c, t1.p2, t2.p2);
    TimesLess(c, t2.p2, t1.p2);
  }

  /** Scaling all prices scales the thresholds with them. */
  lemma ScaleMovesThreshold(tiny: real, t1: Line, t2: Line, barDiff: int, flat: real, c: real)
    requires barDiff > 0 && flat >= 0.0 && tiny >= 0.0 && c > 0.0
    ensures ResolveAt(Times(c, tiny), Scaled(t1, c), Scaled(t2, c), barDiff, flat)
         == ResolveAt(tiny, t1, t2, barDiff, flat)
  {
    hide Times, ResolveAt, FactsOf, Name, Scaled;
    ScaledKeepsOrder(t1, t2, c);
    TimesMono(c, 0.0, tiny);
    TimesUnits(c);
    ResolveIsShape(tiny, t1, t2, barDiff, flat);
    ResolveIsShape(Times(c, tiny), Scaled(t1, c), Scaled(t2, c), barDiff, flat);
    if Ordered(t1, t2) {
      ScaleKeepsFacts(tiny, Upper(t1, t2), Lower(t1, t2), barDiff, flat, c);
    }
  }

  /** Only the thin and the parallel test can tell two thresholds apart, and the parallel test only where it decides. */
  predicate SameTests(tiny: real, tiny': real, u: Line, l: Line, barDiff: int, flat: real) {
    && Thin(tiny, u, l) == Thin(tiny', u, l)
    && (|| Thin(tiny, u, l)
        || Parallel(tiny, u, l, barDiff) == Parallel(tiny', u, l, barDiff)
        || (UpTrend(u, l, flat) == 0 && LowTrend(u, l, flat) == 0)
        || EndGap(u, l) == StartGap(u, l))
  }

  /** Two thresholds give one id exactly when the tests that decide agree, or the lines are in no order. */
  lemma ThresholdKeepsIdIff(tiny: real, tiny': real, t1: Line, t2: Line, barDiff: int, flat: real)
    requires barDiff > 0 && flat >= 0.0 && tiny >= 0.0 && tiny' >= 0.0
    ensures ResolveAt(tiny, t1, t2, barDiff, flat) == ResolveAt(tiny', t1, t2, barDiff, flat)
       <==> (Ordered(t1, t2) ==> SameTests(tiny, tiny', Upper(t1, t2), Lower(t1, t2), barDiff, flat))
  {
    var u, l := Upper(t1, t2), Lower(t1, t2);
    ResolveIsShape(tiny, t1, t2, barDiff, flat);
    ResolveIsShape(tiny', t1, t2, barDiff, flat);
    if Ordered(t1, t2) {
      assert Above(u, l);
      hide ResolveAt, UpTrend, LowTrend, Parallel, Thin, StartGap, EndGap, Ordered, Upper, Lower;
      TrendRange(u, l, flat);
      RawIsTotal(tiny, u, l, barDiff, flat);
      RawIsTotal(tiny', u, l, barDiff, flat);
    }
  }

  /** Both gaps are wide enough for the `tiny` tests to be decided by the exact ones. */
  predicate Wide(tiny: real, u: Line, l: Line, barDiff: int) {
    StartGap(u, l) >= 2.0 * Times(tiny, barDiff as real) && EndGap(u, l) >= 2.0 * Times(tiny, barDiff as real)
  }

  lemma WideIsClose(s: real, e: real, slack: real)
    requires s >= 2.0 * slack && e >= 2.0 * slack
    ensures Close(s, e, slack) == Close(s, e, 0.0)
  {
  }

  lemma WideFacts(tiny: real, u: Line, l: Line, barDiff: int, flat: real)
    requires Above(u, l) && barDiff > 0 && tiny >= 0.0 && Wide(tiny, u, l, barDiff)
    ensures FactsOf(tiny, u, l, barDiff, flat) == FactsOf(0.0, u, l, barDiff, flat)
  {
    hide Times, Close, UpTrend, LowTrend, RoomBelow, RoomAbove;
    TimesMono(tiny, 1.0, barDiff as real);
    TimesUnits(tiny);
    TimesUnits(barDiff as real);
    WideIsClose(StartGap(u, l), EndGap(u, l), Times(tiny, barDiff as real));
    RoomsHoldGap(u, l);
  }

  /** Scaling all prices by `c` keeps the id exactly when the tests that decide come out alike under the
      thresholds 1e-15 and 1e-15 / c, or the lines are in no order. */
  lemma ScaleKeepsIdIff(t1: Line, t2: Line, barDiff: int, flat: real, c: real)
    requires barDiff > 0 && flat >= 0.0 && c > 0.0
    ensures Resolve(Scaled(t1, c), Scaled(t2, c), barDiff, flat) == Resolve(t1, t2, barDiff, flat)
       <==> (Ordered(t1, t2) ==> SameTests(TINY, TINY / c, Upper(t1, t2), Lower(t1, t2), barDiff, flat))
  {
    hide Times, ResolveAt, SameTests, Scaled;
    Divided(TINY, c);
    ScaleMovesThreshold(TINY / c, t1, t2, barDiff, flat, c);
    ThresholdKeepsIdIff(TINY, TINY / c, t1, t2, barDiff, flat);
  }

  lemma Divided(x: real, c: real)
    requires x >= 0.0 && c > 0.0
    ensures x / c >= 0.0 && Times(c, x / c) == x
  {
  }

  /** With gaps wide against both thresholds the price unit does not matter. */
  lemma ScaleKeepsId(t1: Line, t2: Line, barDiff: int, flat: real, c: real)
    requires barDiff > 0 && flat >= 0.0 && c > 0.0
    requires Wide(TINY, Upper(t1, t2), Lower(t1, t2), barDiff) && Wide(TINY / c, Upper(t1, t2), Lower(t1, t2), barDiff)
    ensures Resolve(Scaled(t1, c), Scaled(t2, c), barDiff, flat) == Resolve(t1, t2, barDiff, flat)
  {
    hide Resolve, Wide, Scaled, Parallel, UpTrend, LowTrend, Thin, StartGap, EndGap;
    Divided(TINY, c);
    if Ordered(t1, t2) {
      WideFacts(TINY, Upper(t1, t2), Lower(t1, t2), barDiff, flat);
      WideFacts(TINY / c, Upper(t1, t2), Lower(t1, t2), barDiff, flat);
    }
    ScaleKeepsIdIff(t1, t2, barDiff, flat, c);
  }

  const MINUTE_TOP := Line(0.000000000000002, 0.000000000000005)
  const MINUTE_FLOOR := Line(0.0, 0.0)

  const SMALL_UNIT := 1000000000000000.0

  lemma MinuteGapIsParallel()
    ensures Parallel(TINY, MINUTE_TOP, MINUTE_FLOOR, 10)
    ensures !Parallel(TINY / SMALL_UNIT, MINUTE_TOP, MINUTE_FLOOR, 10)
  {
  }

  lemma MinuteRooms()
    ensures SMALL_UNIT > 0.0
    ensures !Thin(TINY, MINUTE_TOP, MINUTE_FLOOR) && !Thin(TINY / SMALL_UNIT, MINUTE_TOP, MINUTE_FLOOR)
    ensures UpTrend(MINUTE_TOP, MINUTE_FLOOR, 0.0) == 1
    ensures EndGap(MINUTE_TOP, MINUTE_FLOOR) != StartGap(MINUTE_TOP, MINUTE_FLOOR)
    ensures Ordered(MINUTE_TOP, MINUTE_FLOOR) && Upper(MINUTE_TOP, MINUTE_FLOOR) == MINUTE_TOP
    ensures Lower(MINUTE_TOP, MINUTE_FLOOR) == MINUTE_FLOOR
  {
  }

  lemma TestsDiffer(tiny: real, tiny': real, u: Line, l: Line, barDiff: int, flat: real)
    requires !Thin(tiny, u, l) && UpTrend(u, l, flat) != 0 && EndGap(u, l) != StartGap(u, l)
    requires Parallel(tiny, u, l, barDiff) && !Parallel(tiny', u, l, barDiff)
    ensures !SameTests(tiny, tiny', u, l, barDiff, flat)
  {
    hide Thin, Parallel, UpTrend, LowTrend, EndGap, StartGap;
  }

  /** The parallel test flips: a diverging channel of a few 1e-15 over ten bars passes for a parallel one
      until it is quoted in a small enough unit. */
  lemma ScaleCanChangeShape()
    ensures Resolve(Scaled(MINUTE_TOP, SMALL_UNIT), Scaled(MINUTE_FLOOR, SMALL_UNIT), 10, 0.0)
         != Resolve(MINUTE_TOP, MINUTE_FLOOR, 10, 0.0)
  {
    hide *;
    MinuteRooms();
    MinuteGapIsParallel();
    TestsDiffer(TINY, TINY / SMALL_UNIT, MINUTE_TOP, MINUTE_FLOOR, 10, 0.0);
    ScaleKeepsIdIff(MINUTE_TOP, MINUTE_FLOOR, 10, 0.0, SMALL_UNIT);
  }

  /** The thin test flips: a channel keeps no shape at all when quoted in a large enough unit. */
  lemma ScaleCanLoseShape(t1: Line, t2: Line, barDiff: int, flat: real, c: real)
    requires Ordered(t1, t2) && barDiff > 0 && flat >= 0.0 && c > 0.0
    requires Times(c, RoomBelow(Upper(t1, t2), Lower(t1, t2))) < TINY <= RoomBelow(Upper(t1, t2), Lower(t1, t2))
    requires TINY <= RoomAbove(Upper(t1, t2), Lower(t1, t2))
    ensures Resolve(t1, t2, barDiff, flat) != 0
    ensures Resolve(Scaled(t1, c), Scaled(t2, c), barDiff, flat) == 0
  {
    hide Times, Resolve, RoomBelow, RoomAbove, Scaled;
    ScaledKeepsOrder(t1, t2, c);
    GapsScale(Upper(t1, t2), Lower(t1, t2), c);
    EveryChannelHasAShape(t1, t2, barDiff, flat);
    EveryChannelHasAShape(Scaled(t1, c), Scaled(t2, c), barDiff, flat);
  }
}
