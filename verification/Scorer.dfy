/**
 The confluence score of one symbol and timeframe: recent detections, one vote per pattern family and
 direction, and the verdict on the net score.  The logistic confidence is not part of this model.
 */
module Scorer {
  import opened Options

  datatype Dir = Bull | Bear | Neutral

  /** A row of `detections`; `score` is the stored one or its default 0.6. */
  datatype Row = Row(family: string, direction: int, score: real)

  datatype Config = Config(weights: map<string, real>, adjusters: map<string, real>, strong: real)

  function DirOf(r: Row): Dir { if r.direction > 0 then Bull else if r.direction < 0 then Bear else Neutral }

  function Lookup(m: map<string, real>, k: string): real { if k in m then m[k] else 1.0 }

  function Clamp01(x: real): real { if x < 0.0 then 0.0 else if x > 1.0 then 1.0 else x }

  function RegimeKey(family: string, regime: Option<string>): string {
    family + ":" + if regime.Some? then regime.value else "*"
  }

  function Contribution(cfg: Config, regime: Option<string>, r: Row): real {
    Lookup(cfg.weights, r.family) * Clamp01(r.score) * Lookup(cfg.adjusters, RegimeKey(r.family, regime))
  }

  /** A contribution grows with the row's score from nothing, at zero and below, to the family's weight times its
      adjuster for the regime, at one and above; what is not configured counts as one. */
  lemma ContributionIsWeighted(cfg: Config, regime: Option<string>, r: Row)
    ensures var key := r.family + ":" + (if regime.Some? then regime.value else "*");
            var full := (if r.family in cfg.weights then cfg.weights[r.family] else 1.0)
                        * (if key in cfg.adjusters then cfg.adjusters[key] else 1.0);
            && (r.score <= 0.0 ==> Contribution(cfg, regime, r) == 0.0)
            && (r.score >= 1.0 ==> Contribution(cfg, regime, r) == full)
            && (0.0 <= r.score <= 1.0 ==> Contribution(cfg, regime, r) == r.score * full)
  {
  }

  // ---------------------------------------------------------------------------
  // Sums over sets
  // ---------------------------------------------------------------------------

  ghost function Sum<K(!new)>(s: set<K>, f: K -> real): real {
    if s == {} then 0.0 else var x :| x in s; f(x) + Sum(s - {x}, f)
  }

  /** Any element can be taken out first, so the sum has no order. */
  lemma {:induction false} TakeOut<K(!new)>(s: set<K>, f: K -> real, y: K)
    requires y in s
    ensures Sum(s, f) == f(y) + Sum(s - {y}, f)
    decreases |s|
  {
    var x :| x in s && Sum(s, f) == f(x) + Sum(s - {x}, f);
    if x != y {
      TakeOut(s - {x}, f, y);
      TakeOut(s - {y}, f, x);
      assert s - {x} - {y} == s - {y} - {x};
    }
  }

  lemma {:induction false} SumsAgree<K(!new)>(s: set<K>, f: K -> real, g: K -> real)
    requires forall x :: x in s ==> f(x) == g(x)
    ensures Sum(s, f) == Sum(s, g)
    decreases |s|
  {
    if s != {} {
      var x :| x in s;
      TakeOut(s, f, x);
      TakeOut(s, g, x);
      SumsAgree(s - {x}, f, g);
    }
  }

  lemma {:induction false} ZerosDropOut<K(!new)>(s: set<K>, t: set<K>, f: K -> real)
    requires s <= t && forall x :: x in t - s ==> f(x) == 0.0
    ensures Sum(s, f) == Sum(t, f)
    decreases |t - s|
  {
    if t - s == {} {
      assert t == s;
    } else {
      var x :| x in t - s;
      TakeOut(t, f, x);
      assert t - {x} - s < t - s;
      ZerosDropOut(s, t - {x}, f);
    }
  }

  function Minus<K>(f: K -> real, g: K -> real): K -> real { x => f(x) - g(x) }

  lemma {:induction false} SumOfDifference<K(!new)>(s: set<K>, f: K -> real, g: K -> real)
    ensures Sum(s, f) - Sum(s, g) == Sum(s, Minus(f, g))
    decreases |s|
  {
    if s != {} {
      var x :| x in s;
      TakeOut(s, f, x);
      TakeOut(s, g, x);
      TakeOut(s, Minus(f, g), x);
      SumOfDifference(s - {x}, f, g);
    }
  }

  // ---------------------------------------------------------------------------
  // Declarative scores
  // ---------------------------------------------------------------------------

  /** The best contribution of a family in a direction, at least zero. */
  function Best(cfg: Config, regime: Option<string>, rows: seq<Row>, family: string, dir: Dir): real {
    if rows == [] then 0.0
    else
      var best, r := Best(cfg, regime, rows[..|rows| - 1], family, dir), rows[|rows| - 1];
      if r.family == family && DirOf(r) == dir && Contribution(cfg, regime, r) > best then Contribution(cfg, regime, r) else best
  }

  predicate Votes(rows: seq<Row>, r: Row, family: string, dir: Dir) { r in rows && r.family == family && DirOf(r) == dir }

  lemma {:induction false} BestIsMaximum(cfg: Config, regime: Option<string>, rows: seq<Row>, family: string, dir: Dir)
    ensures Best(cfg, regime, rows, family, dir) >= 0.0
    ensures forall r :: Votes(rows, r, family, dir) ==> Contribution(cfg, regime, r) <= Best(cfg, regime, rows, family, dir)
    ensures Best(cfg, regime, rows, family, dir) == 0.0
         || exists r :: Votes(rows, r, family, dir) && Contribution(cfg, regime, r) == Best(cfg, regime, rows, family, dir)
    decreases |rows|
  {
    hide Contribution;
    if rows != [] {
      var front, last := rows[..|rows| - 1], rows[|rows| - 1];
      BestIsMaximum(cfg, regime, front, family, dir);
      assert rows == front + [last];
      assert forall r :: Votes(front, r, family, dir) ==> Votes(rows, r, family, dir);
      assert Votes(rows, last, family, dir) <==> last.family == family && DirOf(last) == dir;
    }
  }

  /** The same rows in any order, repeated or not, have the same best. */
  lemma BestIsOrderFree(cfg: Config, regime: Option<string>, rows: seq<Row>, rows': seq<Row>, family: string, dir: Dir)
    requires forall r :: Votes(rows, r, family, dir) <==> Votes(rows', r, family, dir)
    ensures Best(cfg, regime, rows, family, dir) == Best(cfg, regime, rows', family, dir)
  {
    hide Contribution, Best, Votes;
    BestIsMaximum(cfg, regime, rows, family, dir);
    BestIsMaximum(cfg, regime, rows', family, dir);
  }

  function Families(rows: seq<Row>): set<string> { set r | r in rows :: r.family }

  function BullShare(cfg: Config, regime: Option<string>, rows: seq<Row>): string -> real {
    f => Best(cfg, regime, rows, f, Bull) + Best(cfg, regime, rows, f, Neutral) * 0.5
  }

  function BearShare(cfg: Config, regime: Option<string>, rows: seq<Row>): string -> real {
    f => Best(cfg, regime, rows, f, Bear) + Best(cfg, regime, rows, f, Neutral) * 0.5
  }

  ghost function BullScore(cfg: Config, regime: Option<string>, rows: seq<Row>): real {
    Sum(Families(rows), BullShare(cfg, regime, rows))
  }

  ghost function BearScore(cfg: Config, regime: Option<string>, rows: seq<Row>): real {
    Sum(Families(rows), BearShare(cfg, regime, rows))
  }

  lemma BestOfOne(cfg: Config, regime: Option<string>, r: Row, dir: Dir)
    ensures var c := Contribution(cfg, regime, r);
            Best(cfg, regime, [r], r.family, dir) == if DirOf(r) == dir && c > 0.0 then c else 0.0
  {
    assert [r][..0] == [];
    assert Best(cfg, regime, [], r.family, dir) == 0.0;
  }

  /** One row scores its contribution for its side and nothing for the other; a neutral one scores half for each.
      Negative contributions count for nothing. */
  lemma OneRowScores(cfg: Config, regime: Option<string>, r: Row)
    ensures var c := if Contribution(cfg, regime, r) > 0.0 then Contribution(cfg, regime, r) else 0.0;
            && BullScore(cfg, regime, [r]) == (if r.direction > 0 then c else if r.direction < 0 then 0.0 else c / 2.0)
            && BearScore(cfg, regime, [r]) == (if r.direction < 0 then c else if r.direction > 0 then 0.0 else c / 2.0)
  {
    BestOfOne(cfg, regime, r, Bull);
    BestOfOne(cfg, regime, r, Bear);
    BestOfOne(cfg, regime, r, Neutral);
    hide Contribution, Best;
    assert Families([r]) == {r.family};
    TakeOut({r.family}, BullShare(cfg, regime, [r]), r.family);
    TakeOut({r.family}, BearShare(cfg, regime, [r]), r.family);
    assert {r.family} - {r.family} == {};
  }

  lemma {:induction false} SumOfUnion<K(!new)>(s: set<K>, t: set<K>, f: K -> real)
    requires s !! t
    ensures Sum(s + t, f) == Sum(s, f) + Sum(t, f)
    decreases |s|
  {
    if s == {} {
      assert s + t == t;
    } else {
      var x :| x in s;
      TakeOut(s + t, f, x);
      TakeOut(s, f, x);
      assert s + t - {x} == (s - {x}) + t;
      SumOfUnion(s - {x}, t, f);
    }
  }

  lemma BestOfPart(cfg: Config, regime: Option<string>, part: seq<Row>, all: seq<Row>, family: string, dir: Dir)
    requires forall r: Row :: r.family == family ==> (r in part <==> r in all)
    ensures Best(cfg, regime, part, family, dir) == Best(cfg, regime, all, family, dir)
  {
    hide Best, DirOf;
    BestIsOrderFree(cfg, regime, part, all, family, dir);
  }

  /** Rows of different families add up; within a family only the best of each direction counts (`BestIsMaximum`). */
  lemma FamiliesAdd(cfg: Config, regime: Option<string>, rows: seq<Row>, others: seq<Row>)
    requires Families(rows) !! Families(others)
    ensures BullScore(cfg, regime, rows + others) == BullScore(cfg, regime, rows) + BullScore(cfg, regime, others)
    ensures BearScore(cfg, regime, rows + others) == BearScore(cfg, regime, rows) + BearScore(cfg, regime, others)
  {
    hide Best;
    var all, s, t := rows + others, Families(rows), Families(others);
    assert forall r :: r in all <==> r in rows || r in others;
    assert Families(all) == s + t;
    forall f, d | f in s ensures Best(cfg, regime, rows, f, d) == Best(cfg, regime, all, f, d) {
      assert f !in t;
      BestOfPart(cfg, regime, rows, all, f, d);
    }
    forall f, d | f in t ensures Best(cfg, regime, others, f, d) == Best(cfg, regime, all, f, d) {
      assert f !in s;
      BestOfPart(cfg, regime, others, all, f, d);
    }
    SumOfUnion(s, t, BullShare(cfg, regime, all));
    SumsAgree(s, BullShare(cfg, regime, all), BullShare(cfg, regime, rows));
    SumsAgree(t, BullShare(cfg, regime, all), BullShare(cfg, regime, others));
    SumOfUnion(s, t, BearShare(cfg, regime, all));
    SumsAgree(s, BearShare(cfg, regime, all), BearShare(cfg, regime, rows));
    SumsAgree(t, BearShare(cfg, regime, all), BearShare(cfg, regime, others));
  }

  predicate SameRows(rows: seq<Row>, rows': seq<Row>) { (forall r :: r in rows ==> r in rows') && (forall r :: r in rows' ==> r in rows) }

  /** Neither the order of the rows nor repeated rows matter. */
  lemma ScoresAreOrderFree(cfg: Config, regime: Option<string>, rows: seq<Row>, rows': seq<Row>)
    requires SameRows(rows, rows')
    ensures BullScore(cfg, regime, rows) == BullScore(cfg, regime, rows')
    ensures BearScore(cfg, regime, rows) == BearScore(cfg, regime, rows')
  {
    hide Best;
    assert Families(rows) == Families(rows');
    forall f, d ensures Best(cfg, regime, rows, f, d) == Best(cfg, regime, rows', f, d) {
      BestIsOrderFree(cfg, regime, rows, rows', f, d);
    }
    SumsAgree(Families(rows), BullShare(cfg, regime, rows), BullShare(cfg, regime, rows'));
    SumsAgree(Families(rows), BearShare(cfg, regime, rows), BearShare(cfg, regime, rows'));
  }

  function WithoutNeutral(rows: seq<Row>): seq<Row> {
    if rows == [] then []
    else
      var front, last := WithoutNeutral(rows[..|rows| - 1]), rows[|rows| - 1];
      if DirOf(last) == Neutral then front else front + [last]
  }

  lemma {:induction false} OnlyNeutralLeave(rows: seq<Row>)
    ensures forall r :: r in WithoutNeutral(rows) <==> r in rows && DirOf(r) != Neutral
    decreases |rows|
  {
    if rows != [] {
      OnlyNeutralLeave(rows[..|rows| - 1]);
      assert rows == rows[..|rows| - 1] + [rows[|rows| - 1]];
    }
  }

  /** How far a family leans to the bull side. */
  function Lean(cfg: Config, regime: Option<string>, rows: seq<Row>): string -> real {
    f => Best(cfg, regime, rows, f, Bull) - Best(cfg, regime, rows, f, Bear)
  }

  lemma NetIsSumOfLeans(cfg: Config, regime: Option<string>, rows: seq<Row>)
    ensures BullScore(cfg, regime, rows) - BearScore(cfg, regime, rows) == Sum(Families(rows), Lean(cfg, regime, rows))
  {
    hide Best;
    var bull, bear := BullShare(cfg, regime, rows), BearShare(cfg, regime, rows);
    SumOfDifference(Families(rows), bull, bear);
    SumsAgree(Families(rows), Minus(bull, bear), Lean(cfg, regime, rows));
  }

  /** Neutral rows never move the net score. */
  lemma NeutralRowsDoNotMoveNet(cfg: Config, regime: Option<string>, rows: seq<Row>)
    ensures var kept := WithoutNeutral(rows);
            BullScore(cfg, regime, rows) - BearScore(cfg, regime, rows) == BullScore(cfg, regime, kept) - BearScore(cfg, regime, kept)
  {
    var kept := WithoutNeutral(rows);
    OnlyNeutralLeave(rows);
    NetIsSumOfLeans(cfg, regime, rows);
    NetIsSumOfLeans(cfg, regime, kept);
    hide Best, WithoutNeutral, BullScore, BearScore;
    forall f ensures Best(cfg, regime, rows, f, Bull) == Best(cfg, regime, kept, f, Bull)
      && Best(cfg, regime, rows, f, Bear) == Best(cfg, regime, kept, f, Bear)
    {
      BestIsOrderFree(cfg, regime, rows, kept, f, Bull);
      BestIsOrderFree(cfg, regime, rows, kept, f, Bear);
    }
    SumsAgree(Families(kept), Lean(cfg, regime, kept), Lean(cfg, regime, rows));
    forall f | f in Families(rows) - Families(kept) ensures Lean(cfg, regime, rows)(f) == 0.0 {
      NoVoteNoBest(cfg, regime, rows, f, Bull);
      NoVoteNoBest(cfg, regime, rows, f, Bear);
    }
    ZerosDropOut(Families(kept), Families(rows), Lean(cfg, regime, rows));
  }

  lemma NoVoteNoBest(cfg: Config, regime: Option<string>, rows: seq<Row>, family: string, dir: Dir)
    requires forall r :: !Votes(rows, r, family, dir)
    ensures Best(cfg, regime, rows, family, dir) == 0.0
  {
    BestIsMaximum(cfg, regime, rows, family, dir);
  }

  // ---------------------------------------------------------------------------
  // Flipping every direction
  // ---------------------------------------------------------------------------

  function Flip(rows: seq<Row>): seq<Row> { seq(|rows|, i requires 0 <= i < |rows| => rows[i].(direction := -rows[i].direction)) }

  function FlipDir(d: Dir): Dir { match d case Bull => Bear case Bear => Bull case Neutral => Neutral }

  lemma SameContribution(cfg: Config, regime: Option<string>, r: Row)
    ensures Contribution(cfg, regime, r.(direction := -r.direction)) == Contribution(cfg, regime, r)
    ensures DirOf(r.(direction := -r.direction)) == FlipDir(DirOf(r))
  {
  }

  lemma {:induction false} FlipKeepsBest(cfg: Config, regime: Option<string>, rows: seq<Row>, family: string, dir: Dir)
    ensures Best(cfg, regime, Flip(rows), family, FlipDir(dir)) == Best(cfg, regime, rows, family, dir)
    decreases |rows|
  {
    hide Contribution;
    if rows != [] {
      SameContribution(cfg, regime, rows[|rows| - 1]);
      FlipKeepsBest(cfg, regime, rows[..|rows| - 1], family, dir);
      assert Flip(rows)[..|rows| - 1] == Flip(rows[..|rows| - 1]);
    }
  }

  /** Flipping every direction swaps the two scores. */
  lemma FlipSwapsScores(cfg: Config, regime: Option<string>, rows: seq<Row>)
    ensures BullScore(cfg, regime, Flip(rows)) == BearScore(cfg, regime, rows)
    ensures BearScore(cfg, regime, Flip(rows)) == BullScore(cfg, regime, rows)
  {
    hide Best;
    forall f, d ensures Best(cfg, regime, Flip(rows), f, FlipDir(d)) == Best(cfg, regime, rows, f, d) {
      FlipKeepsBest(cfg, regime, rows, f, d);
    }
    FlipKeepsFamilies(rows);
    SumsAgree(Families(rows), BullShare(cfg, regime, Flip(rows)), BearShare(cfg, regime, rows));
    SumsAgree(Families(rows), BearShare(cfg, regime, Flip(rows)), BullShare(cfg, regime, rows));
  }

  lemma FlipKeepsFamilies(rows: seq<Row>)
    ensures Families(Flip(rows)) == Families(rows)
  {
    forall r | r in rows ensures r.family in Families(Flip(rows)) {
      var i :| 0 <= i < |rows| && rows[i] == r;
      assert Flip(rows)[i] in Flip(rows);
    }
  }

  // ---------------------------------------------------------------------------
  // Verdict
  // ---------------------------------------------------------------------------

  datatype Verdict = StrongBull | WeakBull | Mixed | WeakBear | StrongBear

  function FromScore(score: real, strong: real): Verdict {
    if score >= strong then StrongBull
    else if score > 0.0 then WeakBull
    else if score <= -strong then StrongBear
    else if score < 0.0 then WeakBear
    else Mixed
  }

  /** With a positive threshold the five verdicts split the scores at it, at zero and at its negation. */
  lemma VerdictSplitsScores(score: real, strong: real)
    requires strong > 0.0
    ensures FromScore(score, strong) == StrongBull <==> score >= strong
    ensures FromScore(score, strong) == WeakBull <==> 0.0 < score < strong
    ensures FromScore(score, strong) == Mixed <==> score == 0.0
    ensures FromScore(score, strong) == WeakBear <==> -strong < score < 0.0
    ensures FromScore(score, strong) == StrongBear <==> score <= -strong
  {
  }

  function Mirror(v: Verdict): Verdict {
    match v
    case StrongBull => StrongBear
    case WeakBull => WeakBear
    case Mixed => Mixed
    case WeakBear => WeakBull
    case StrongBear => StrongBull
  }

  ghost predicate MirrorsAt(strong: real, score: real) { FromScore(-score, strong) == Mirror(FromScore(score, strong)) }

  /** Negating the score mirrors the verdict, for every score, exactly when the strong threshold is positive. */
  lemma VerdictMirrorsIff(strong: real)
    ensures (forall score :: MirrorsAt(strong, score)) <==> strong > 0.0
  {
    if strong <= 0.0 {
      assert !MirrorsAt(strong, 0.0);
    }
  }

  /** Flipping every detection mirrors the verdict when the strong threshold is positive. */
  lemma FlipMirrorsVerdict(cfg: Config, regime: Option<string>, rows: seq<Row>)
    requires cfg.strong > 0.0
    ensures FromScore(BullScore(cfg, regime, Flip(rows)) - BearScore(cfg, regime, Flip(rows)), cfg.strong)
         == Mirror(FromScore(BullScore(cfg, regime, rows) - BearScore(cfg, regime, rows), cfg.strong))
  {
    hide BullScore, BearScore;
    FlipSwapsScores(cfg, regime, rows);
  }

  // ---------------------------------------------------------------------------
  // The aggregation loop
  // ---------------------------------------------------------------------------

  type Key = (string, Dir)

  function KeysOf(rows: seq<Row>): set<Key> { set r | r in rows :: (r.family, DirOf(r)) }

  /** What a map entry adds to the bull score; the bear score reads the mirrored direction. */
  function Share(side: Dir, k: Key, best: real): real {
    if k.1 == side then best else if k.1 == Neutral then best * 0.5 else 0.0
  }

  function KeyShare(cfg: Config, regime: Option<string>, rows: seq<Row>, side: Dir): Key -> real {
    (k: Key) => Share(side, k, Best(cfg, regime, rows, k.0, k.1))
  }

  function AllKeys(families: set<string>): set<Key> { set f, d | f in families && d in {Bull, Bear, Neutral} :: (f, d) }

  ghost function FamilyShare(g: Key -> real): string -> real { f => g((f, Bull)) + g((f, Bear)) + g((f, Neutral)) }

  lemma {:induction false} SumByFamily(families: set<string>, g: Key -> real)
    ensures Sum(AllKeys(families), g) == Sum(families, FamilyShare(g))
    decreases |families|
  {
    if families == {} {
      assert AllKeys(families) == {};
    } else {
      var f :| f in families;
      var keys := AllKeys(families);
      TakeOut(keys, g, (f, Bull));
      TakeOut(keys - {(f, Bull)}, g, (f, Bear));
      TakeOut(keys - {(f, Bull)} - {(f, Bear)}, g, (f, Neutral));
      assert keys - {(f, Bull)} - {(f, Bear)} - {(f, Neutral)} == AllKeys(families - {f});
      SumByFamily(families - {f}, g);
      TakeOut(families, FamilyShare(g), f);
    }
  }

  /** Summing over the map's entries is summing over the families. */
  lemma EntriesSumToScores(cfg: Config, regime: Option<string>, rows: seq<Row>)
    ensures Sum(KeysOf(rows), KeyShare(cfg, regime, rows, Bull)) == BullScore(cfg, regime, rows)
    ensures Sum(KeysOf(rows), KeyShare(cfg, regime, rows, Bear)) == BearScore(cfg, regime, rows)
  {
    hide Best;
    EntriesSumToSide(cfg, regime, rows, Bull);
    EntriesSumToSide(cfg, regime, rows, Bear);
    SumsAgree(Families(rows), FamilyShare(KeyShare(cfg, regime, rows, Bull)), BullShare(cfg, regime, rows));
    SumsAgree(Families(rows), FamilyShare(KeyShare(cfg, regime, rows, Bear)), BearShare(cfg, regime, rows));
  }

  lemma EntriesSumToSide(cfg: Config, regime: Option<string>, rows: seq<Row>, side: Dir)
    ensures Sum(KeysOf(rows), KeyShare(cfg, regime, rows, side)) == Sum(Families(rows), FamilyShare(KeyShare(cfg, regime, rows, side)))
  {
    hide Best;
    var g, all := KeyShare(cfg, regime, rows, side), AllKeys(Families(rows));
    forall k | k in all - KeysOf(rows) ensures g(k) == 0.0 {
      NoVoteNoBest(cfg, regime, rows, k.0, k.1);
    }
    ZerosDropOut(KeysOf(rows), all, g);
    SumByFamily(Families(rows), g);
  }

  /** `m` holds the best contribution of every family and direction seen in `rows`. */
  predicate HoldsBest(cfg: Config, regime: Option<string>, rows: seq<Row>, m: map<Key, real>) {
    && m.Keys == KeysOf(rows)
    && forall k :: k in m ==> m[k] == Best(cfg, regime, rows, k.0, k.1)
  }

  function Raised(m: map<Key, real>, k: Key, c: real): map<Key, real> {
    var m' := if k in m then m else m[k := 0.0];
    if c > m'[k] then m'[k := c] else m'
  }

  lemma OneRowMore(cfg: Config, regime: Option<string>, rows: seq<Row>, r: Row, m: map<Key, real>)
    requires HoldsBest(cfg, regime, rows, m)
    ensures HoldsBest(cfg, regime, rows + [r], Raised(m, (r.family, DirOf(r)), Contribution(cfg, regime, r)))
  {
    var k, more := (r.family, DirOf(r)), rows + [r];
    var m' := Raised(m, k, Contribution(cfg, regime, r));
    KeysWithOneMore(rows, r);
    hide Contribution, Best, DirOf, KeysOf, Raised;
    RaisedIs(m, k, Contribution(cfg, regime, r));
    if k !in m {
      NoVoteNoBestKey(cfg, regime, rows, k);
    }
    forall k' | k' in m' ensures m'[k'] == Best(cfg, regime, more, k'.0, k'.1) {
      BestWithOneMore(cfg, regime, rows, r, k'.0, k'.1);
    }
  }

  lemma KeysWithOneMore(rows: seq<Row>, r: Row)
    ensures KeysOf(rows + [r]) == KeysOf(rows) + {(r.family, DirOf(r))}
  {
    hide DirOf;
  }

  lemma NoVoteNoBestKey(cfg: Config, regime: Option<string>, rows: seq<Row>, k: Key)
    requires k !in KeysOf(rows)
    ensures Best(cfg, regime, rows, k.0, k.1) == 0.0
  {
    hide DirOf, Best;
    NoVoteNoBest(cfg, regime, rows, k.0, k.1);
  }

  lemma RaisedIs(m: map<Key, real>, k: Key, c: real)
    ensures Raised(m, k, c).Keys == m.Keys + {k}
    ensures var before := if k in m then m[k] else 0.0; Raised(m, k, c)[k] == if c > before then c else before
    ensures forall k' :: k' in m && k' != k ==> Raised(m, k, c)[k'] == m[k']
  {
  }

  lemma BestWithOneMore(cfg: Config, regime: Option<string>, rows: seq<Row>, r: Row, family: string, dir: Dir)
    ensures var before, c := Best(cfg, regime, rows, family, dir), Contribution(cfg, regime, r);
            Best(cfg, regime, rows + [r], family, dir)
            == if (r.family, DirOf(r)) == (family, dir) && c > before then c else before
  {
    hide Contribution;
    assert (rows + [r])[..|rows|] == rows;
  }

  /** Taking an entry of the map out of a sum. */
  lemma TakeEntry(cfg: Config, regime: Option<string>, rows: seq<Row>, m: map<Key, real>, left: set<Key>, k: Key, side: Dir)
    requires HoldsBest(cfg, regime, rows, m) && k in left && left <= m.Keys
    ensures var g := KeyShare(cfg, regime, rows, side); Sum(left, g) == Share(side, k, m[k]) + Sum(left - {k}, g)
  {
    hide Best;
    TakeOut(left, KeyShare(cfg, regime, rows, side), k);
  }

  /** The loops of `compute`: per-family maxima in a map, then one pass over its entries in any order. */
  method Compute(cfg: Config, regime: Option<string>, rows: seq<Row>) returns (bull: real, bear: real, net: real, verdict: Verdict)
    ensures bull == BullScore(cfg, regime, rows) && bear == BearScore(cfg, regime, rows)
    ensures net == bull - bear && verdict == FromScore(net, cfg.strong)
  {
    hide Contribution, BullScore, BearScore, Best, KeyShare;
    var familyBest: map<Key, real> := map[];
    for i := 0 to |rows|
      invariant HoldsBest(cfg, regime, rows[..i], familyBest)
    {
      var r := rows[i];
      OneRowMore(cfg, regime, rows[..i], r, familyBest);
      assert rows[..i + 1] == rows[..i] + [r];
      var contribution, k := Contribution(cfg, regime, r), (r.family, DirOf(r));
      if k !in familyBest {
        familyBest := familyBest[k := 0.0];
      }
      if contribution > familyBest[k] {
        familyBest := familyBest[k := contribution];
      }
    }
    assert rows[..|rows|] == rows;
    EntriesSumToScores(cfg, regime, rows);
    bull, bear := 0.0, 0.0;
    var left := familyBest.Keys;
    ghost var bulls, bears := KeyShare(cfg, regime, rows, Bull), KeyShare(cfg, regime, rows, Bear);
    while left != {}
      invariant left <= familyBest.Keys
      invariant bull + Sum(left, bulls) == Sum(familyBest.Keys, bulls)
      invariant bear + Sum(left, bears) == Sum(familyBest.Keys, bears)
      decreases |left|
    {
      var k :| k in left;
      TakeEntry(cfg, regime, rows, familyBest, left, k, Bull);
      TakeEntry(cfg, regime, rows, familyBest, left, k, Bear);
      match k.1 {
        case Bull => bull := bull + familyBest[k];
        case Bear => bear := bear + familyBest[k];
        case Neutral =>
          bull := bull + familyBest[k] * 0.5;
          bear := bear + familyBest[k] * 0.5;
      }
      left := left - {k};
    }
    net := bull - bear;
    verdict := FromScore(net, cfg.strong);
  }
}
