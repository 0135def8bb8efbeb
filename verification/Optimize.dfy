/**
 Parameter search: the cartesian product of a parameter grid, walk-forward windows over the bars and the
 search for the best combination.  Running a strategy on a slice of bars and scoring the result is one
 function of the parameters and of the slice.
 */
module Optimize {
  import opened JsonValues
  import opened Metrics

  // ---------------------------------------------------------------------------
  // The grid
  // ---------------------------------------------------------------------------

  type Params = map<string, Json>

  datatype Axis = Axis(name: string, values: seq<Json>)

  predicate NoRepeats<T(==)>(s: seq<T>) { forall i, j :: 0 <= i < j < |s| ==> s[i] != s[j] }

  /** The axes come from a map, so names differ. */
  predicate Named(axes: seq<Axis>) { forall i, j :: 0 <= i < j < |axes| ==> axes[i].name != axes[j].name }

  function Names(axes: seq<Axis>): set<string> { set i | 0 <= i < |axes| :: axes[i].name }

  /** `m` gives every axis one of its values, and nothing else a value. */
  predicate Assigns(axes: seq<Axis>, m: Params) {
    && m.Keys == Names(axes)
    && forall i :: 0 <= i < |axes| ==> m[axes[i].name] in axes[i].values
  }

  /** `base` with every value of the axis in turn. */
  function Extend(base: Params, axis: Axis, n: nat): seq<Params>
    requires n <= |axis.values|
  {
    if n == 0 then [] else Extend(base, axis, n - 1) + [base[axis.name := axis.values[n - 1]]]
  }

  function ExtendAll(bases: seq<Params>, axis: Axis): seq<Params> {
    if bases == [] then []
    else ExtendAll(bases[..|bases| - 1], axis) + Extend(bases[|bases| - 1], axis, |axis.values|)
  }

  function Product(axes: seq<Axis>): seq<Params> {
    if axes == [] then [map[]] else ExtendAll(Product(axes[..|axes| - 1]), axes[|axes| - 1])
  }

  predicate Lacks(bases: seq<Params>, name: string) { forall b :: b in bases ==> name !in b }

  lemma Restem(m: Params, b: Params, name: string, v: Json)
    requires name !in b
    ensures m == b[name := v] <==> name in m && m[name] == v && m - {name} == b
  {
    if name in m && m[name] == v && m - {name} == b {
      assert m.Keys == (m - {name}).Keys + {name};
    }
  }

  lemma {:induction false} ExtendHolds(base: Params, axis: Axis, n: nat, m: Params)
    requires n <= |axis.values| && axis.name !in base
    ensures m in Extend(base, axis, n) <==> axis.name in m && m - {axis.name} == base && m[axis.name] in axis.values[..n]
    decreases n
  {
    if n > 0 {
      var v := axis.values[n - 1];
      ExtendHolds(base, axis, n - 1, m);
      assert axis.values[..n] == axis.values[..n - 1] + [v];
      Restem(m, base, axis.name, v);
    }
  }

  lemma {:induction false} ExtendAllHolds(bases: seq<Params>, axis: Axis, m: Params)
    requires Lacks(bases, axis.name)
    ensures m in ExtendAll(bases, axis) <==> axis.name in m && m - {axis.name} in bases && m[axis.name] in axis.values
    decreases |bases|
  {
    if bases != [] {
      var front, last := bases[..|bases| - 1], bases[|bases| - 1];
      ExtendAllHolds(front, axis, m);
      ExtendHolds(last, axis, |axis.values|, m);
      assert axis.values[..|axis.values|] == axis.values;
      assert bases == front + [last];
    }
  }

  lemma OneAxisMore(axes: seq<Axis>, m: Params)
    requires axes != [] && Named(axes)
    ensures var front, last := axes[..|axes| - 1], axes[|axes| - 1];
            Assigns(axes, m) <==>
              last.name in m && m[last.name] in last.values && Assigns(front, m - {last.name})
  {
    var front, last := axes[..|axes| - 1], axes[|axes| - 1];
    assert Names(axes) == Names(front) + {last.name};
    assert last.name !in Names(front);
    if last.name in m && Assigns(front, m - {last.name}) {
      assert m.Keys == (m - {last.name}).Keys + {last.name};
      forall i | 0 <= i < |front| ensures m[axes[i].name] in axes[i].values {
        assert front[i] == axes[i];
        assert front[i].name in Names(front);
      }
    }
    if Assigns(axes, m) {
      forall i | 0 <= i < |front| ensures front[i].name in m - {last.name} && (m - {last.name})[front[i].name] in front[i].values {
        assert front[i] == axes[i];
        assert axes[i].name in Names(axes);
      }
    }
  }

  /** `out` holds exactly the assignments of the axes. */
  ghost predicate Lists(axes: seq<Axis>, out: seq<Params>) {
    forall m :: m in out <==> Assigns(axes, m)
  }

  lemma ListsNoAxes(axes: seq<Axis>)
    requires axes == []
    ensures Lists(axes, [map[]])
  {
  }

  lemma ListsOneMore(axes: seq<Axis>, bases: seq<Params>)
    requires axes != [] && Named(axes) && Lists(axes[..|axes| - 1], bases)
    ensures Lacks(bases, axes[|axes| - 1].name) && Lists(axes, ExtendAll(bases, axes[|axes| - 1]))
  {
    var front, last := axes[..|axes| - 1], axes[|axes| - 1];
    hide ExtendAll;
    assert last.name !in Names(front);
    assert Lacks(bases, last.name);
    hide Named, Lacks, Names;
    forall m ensures m in ExtendAll(bases, last) <==> Assigns(axes, m) {
      OneAxisMore(axes, m);
      ExtendAllHolds(bases, last, m);
    }
  }

  lemma {:induction false} ProductIsAssignments(axes: seq<Axis>)
    requires Named(axes)
    ensures Lists(axes, Product(axes))
    decreases |axes|
  {
    hide Lists, ExtendAll;
    if axes == [] {
      ListsNoAxes(axes);
    } else {
      ProductIsAssignments(axes[..|axes| - 1]);
      ListsOneMore(axes, Product(axes[..|axes| - 1]));
    }
  }

  predicate Apart<T(==)>(a: seq<T>, b: seq<T>) { forall x :: x in a ==> x !in b }

  lemma NoRepeatsParts<T>(a: seq<T>, b: seq<T>)
    requires NoRepeats(a + b)
    ensures NoRepeats(a) && NoRepeats(b) && Apart(a, b)
  {
    var s := a + b;
    forall i, j | 0 <= i < j < |a| ensures a[i] != a[j] {
      assert s[i] == a[i] && s[j] == a[j];
    }
    forall i, j | 0 <= i < j < |b| ensures b[i] != b[j] {
      assert s[|a| + i] == b[i] && s[|a| + j] == b[j];
    }
    forall x | x in a ensures x !in b {
      var i :| 0 <= i < |a| && a[i] == x;
      forall j | 0 <= j < |b| ensures b[j] != x {
        assert s[i] == a[i] && s[|a| + j] == b[j];
      }
    }
  }

  lemma NoRepeatsJoin<T>(a: seq<T>, b: seq<T>)
    ensures NoRepeats(a + b) <==> NoRepeats(a) && NoRepeats(b) && Apart(a, b)
  {
    if NoRepeats(a + b) {
      NoRepeatsParts(a, b);
    } else {
      var i, j :| 0 <= i < j < |a + b| && (a + b)[i] == (a + b)[j];
      assert j < |a| ==> (a + b)[j] == a[j];
      assert j >= |a| ==> (a + b)[j] == b[j - |a|] && b[j - |a|] in b;
      assert i < |a| ==> (a + b)[i] == a[i] && a[i] in a;
      assert i >= |a| ==> (a + b)[i] == b[i - |a|];
    }
  }

  lemma {:induction false} ExtendRepeats(base: Params, axis: Axis, n: nat)
    requires n <= |axis.values| && axis.name !in base
    ensures NoRepeats(Extend(base, axis, n)) <==> NoRepeats(axis.values[..n])
    decreases n
  {
    if n > 0 {
      ExtendRepeats(base, axis, n - 1);
      var v := axis.values[n - 1];
      var m := base[axis.name := v];
      NoRepeatsJoin(Extend(base, axis, n - 1), [m]);
      NoRepeatsJoin(axis.values[..n - 1], [v]);
      assert axis.values[..n] == axis.values[..n - 1] + [v];
      Restem(m, base, axis.name, v);
      ExtendHolds(base, axis, n - 1, m);
    }
  }

  lemma {:induction false} ExtendAllRepeats(bases: seq<Params>, axis: Axis)
    requires NoRepeats(bases) && Lacks(bases, axis.name)
    ensures NoRepeats(ExtendAll(bases, axis)) <==> bases == [] || NoRepeats(axis.values)
    decreases |bases|
  {
    if bases != [] {
      var front, last := bases[..|bases| - 1], bases[|bases| - 1];
      ExtendAllRepeats(front, axis);
      ExtendRepeats(last, axis, |axis.values|);
      assert axis.values[..|axis.values|] == axis.values;
      NoRepeatsJoin(ExtendAll(front, axis), Extend(last, axis, |axis.values|));
      forall m | m in ExtendAll(front, axis) ensures m !in Extend(last, axis, |axis.values|) {
        ExtendAllHolds(front, axis, m);
        ExtendHolds(last, axis, |axis.values|, m);
      }
    }
  }

  predicate EmptyAxis(axes: seq<Axis>) { exists i :: 0 <= i < |axes| && axes[i].values == [] }

  lemma {:induction false} ExtendAllEmpty(bases: seq<Params>, axis: Axis)
    ensures ExtendAll(bases, axis) == [] <==> bases == [] || axis.values == []
    decreases |bases|
  {
    if bases != [] {
      ExtendAllEmpty(bases[..|bases| - 1], axis);
    }
  }

  lemma {:induction false} ProductEmpty(axes: seq<Axis>)
    ensures Product(axes) == [] <==> EmptyAxis(axes)
    decreases |axes|
  {
    hide ExtendAll;
    if axes != [] {
      var front, last := axes[..|axes| - 1], axes[|axes| - 1];
      ProductEmpty(front);
      ExtendAllEmpty(Product(front), last);
      assert axes == front + [last];
    }
  }

  lemma {:induction false} RepeatsStay(bases: seq<Params>, axis: Axis)
    requires !NoRepeats(bases) && axis.values != [] && Lacks(bases, axis.name)
    ensures !NoRepeats(ExtendAll(bases, axis))
    decreases |bases|
  {
    var front, last := bases[..|bases| - 1], bases[|bases| - 1];
    NoRepeatsJoin(front, [last]);
    assert bases == front + [last];
    NoRepeatsJoin(ExtendAll(front, axis), Extend(last, axis, |axis.values|));
    if !NoRepeats(front) {
      RepeatsStay(front, axis);
    } else {
      var m := last[axis.name := axis.values[0]];
      Restem(m, last, axis.name, axis.values[0]);
      ExtendAllHolds(front, axis, m);
      ExtendHolds(last, axis, |axis.values|, m);
      assert axis.values[..|axis.values|] == axis.values;
    }
  }

  predicate AllDistinct(axes: seq<Axis>) { forall i :: 0 <= i < |axes| ==> NoRepeats(axes[i].values) }

  /** No combination is listed twice exactly when every axis has distinct values, or some axis has none. */
  lemma {:induction false} ProductRepeats(axes: seq<Axis>)
    requires Named(axes)
    ensures NoRepeats(Product(axes)) <==> AllDistinct(axes) || EmptyAxis(axes)
    decreases |axes|
  {
    if axes != [] {
      var front, last := axes[..|axes| - 1], axes[|axes| - 1];
      assert axes == front + [last];
      ProductRepeats(front);
      ProductEmpty(front);
      ProductEmpty(axes);
      if last.values != [] {
        ProductIsAssignments(front);
        ListsOneMore(axes, Product(front));
        if NoRepeats(Product(front)) {
          ExtendAllRepeats(Product(front), last);
        } else {
          RepeatsStay(Product(front), last);
        }
      }
      assert EmptyAxis(axes) <==> EmptyAxis(front) || last.values == [];
      assert AllDistinct(axes) <==> AllDistinct(front) && NoRepeats(last.values);
    }
  }

  /** `cartesian_product`: every assignment of the grid, each once when the values of each axis are distinct. */
  method CartesianProduct(axes: seq<Axis>) returns (out: seq<Params>)
    requires Named(axes)
    ensures out == Product(axes)
    ensures Lists(axes, out)
    ensures NoRepeats(out) <==> AllDistinct(axes) || EmptyAxis(axes)
  {
    hide Lists, NoRepeats, AllDistinct, EmptyAxis;
    ProductRepeats(axes);
    ProductIsAssignments(axes);
    out := [map[]];
    if axes == [] {
      return;
    }
    for k := 0 to |axes|
      invariant out == Product(axes[..k])
    {
      var axis, next := axes[k], [];
      assert axes[..k + 1][..k] == axes[..k];
      for b := 0 to |out|
        invariant next == ExtendAll(out[..b], axis)
      {
        ghost var before := next;
        assert out[..b + 1][..b] == out[..b];
        for v := 0 to |axis.values|
          invariant next == before + Extend(out[b], axis, v)
        {
          next := next + [out[b][axis.name := axis.values[v]]];
        }
      }
      assert out[..|out|] == out;
      out := next;
    }
    assert axes[..|axes|] == axes;
  }

  // ---------------------------------------------------------------------------
  // Walk-forward windows
  // ---------------------------------------------------------------------------

  datatype WalkForward = WalkForward(train: nat, test: nat, step: nat)
  datatype Slice = Slice(from: nat, to: nat)

  /** How many windows fit into `n` bars. */
  function Windows(wf: WalkForward, n: nat): nat
    requires wf.step > 0 && n >= wf.train + wf.test
  {
    (n - wf.train - wf.test) / wf.step + 1
  }

  function Start(wf: WalkForward, k: nat): nat { k * wf.step }

  /** The test slice of window `k`; the training bars lie just before it. */
  function Tested(wf: WalkForward, k: nat): Slice {
    Slice(Start(wf, k) + wf.train, Start(wf, k) + wf.train + wf.test)
  }

  function Slices(wf: WalkForward, k: nat): seq<Slice> { seq(k, i requires 0 <= i => Tested(wf, i)) }

  function SumScores(score: Slice -> real, slices: seq<Slice>): real {
    if slices == [] then 0.0 else SumScores(score, slices[..|slices| - 1]) + score(slices[|slices| - 1])
  }

  /** Window `k` fits exactly when `k` is below the count. */
  lemma FitsIffCounted(wf: WalkForward, n: nat, k: nat)
    requires wf.step > 0 && n >= wf.train + wf.test
    ensures Tested(wf, k).to <= n <==> k < Windows(wf, n)
  {
    var room, q := n - wf.train - wf.test, Windows(wf, n) - 1;
    assert q * wf.step <= room < q * wf.step + wf.step;
    if k <= q {
      StepMono(wf.step, k, q);
    } else {
      StepMono(wf.step, q + 1, k);
      assert (q + 1) * wf.step == q * wf.step + wf.step;
    }
  }

  lemma StepMono(step: nat, a: nat, b: nat)
    requires a <= b
    ensures a * step <= b * step
  {
  }

  predicate Disjoint(a: Slice, b: Slice) { a.to <= b.from || b.to <= a.from }

  /** The test slices of two different windows never share a bar exactly when the step is at least the test
      length, or the windows are too few or empty. */
  lemma TestsDisjointIff(wf: WalkForward, n: nat)
    requires wf.step > 0 && n >= wf.train + wf.test
    ensures (forall k: nat, l: nat :: k < l < Windows(wf, n) ==> Disjoint(Tested(wf, k), Tested(wf, l)))
            <==> wf.step >= wf.test || Windows(wf, n) == 1
  {
    if wf.step >= wf.test {
      forall k: nat, l: nat | k < l < Windows(wf, n) ensures Disjoint(Tested(wf, k), Tested(wf, l)) {
        StepMono(wf.step, k + 1, l);
        assert (k + 1) * wf.step == k * wf.step + wf.step;
      }
    } else if Windows(wf, n) > 1 {
      assert Start(wf, 0) == 0 && Start(wf, 1) == wf.step;
      assert !Disjoint(Tested(wf, 0), Tested(wf, 1));
    }
  }

  /** What `walk_forward_avg` is to compute. */
  function WalkForwardScore(wf: WalkForward, n: nat, score: Slice -> real): real
    requires wf.step > 0 || n < wf.train + wf.test
  {
    if n < wf.train + wf.test then score(Slice(0, n))
    else SumScores(score, Slices(wf, Windows(wf, n))) / Windows(wf, n) as real
  }

  lemma {:induction false} SumOfConstant(c: real, score: Slice -> real, slices: seq<Slice>)
    requires forall s :: s in slices ==> score(s) == c
    ensures SumScores(score, slices) == c * |slices| as real
    decreases |slices|
  {
    if slices != [] {
      var front := slices[..|slices| - 1];
      SumOfConstant(c, score, front);
      assert c * |slices| as real == c * |front| as real + c;
    }
  }

  lemma {:induction false} SumMovesWithOne(score: Slice -> real, score': Slice -> real, slices: seq<Slice>, k: nat)
    requires k < |slices| && forall i :: 0 <= i < |slices| && i != k ==> score'(slices[i]) == score(slices[i])
    ensures SumScores(score', slices) - SumScores(score, slices) == score'(slices[k]) - score(slices[k])
    decreases |slices|
  {
    var front := slices[..|slices| - 1];
    if k < |front| {
      SumMovesWithOne(score, score', front, k);
    } else {
      SumsAlike(score, score', front);
    }
  }

  lemma {:induction false} SumsAlike(score: Slice -> real, score': Slice -> real, slices: seq<Slice>)
    requires forall i :: 0 <= i < |slices| ==> score'(slices[i]) == score(slices[i])
    ensures SumScores(score', slices) == SumScores(score, slices)
    decreases |slices|
  {
    if slices != [] {
      SumsAlike(score, score', slices[..|slices| - 1]);
    }
  }

  /** Equal scores have the result as their own value. */
  lemma WalkForwardOfConstant(wf: WalkForward, n: nat, score: Slice -> real, c: real)
    requires wf.step > 0 || n < wf.train + wf.test
    requires forall s :: score(s) == c
    ensures WalkForwardScore(wf, n, score) == c
  {
    hide SumScores;
    if n >= wf.train + wf.test {
      var w := Windows(wf, n);
      SumOfConstant(c, score, Slices(wf, w));
      assert c * w as real / w as real == c;
    }
  }

  lemma Quotients(a: real, b: real, w: nat)
    requires w > 0
    ensures a / w as real - b / w as real == (a - b) / w as real
  {
  }

  /** The result is the mean: it moves with the score of any one window by that window's share. */
  lemma WalkForwardIsMean(wf: WalkForward, n: nat, score: Slice -> real, score': Slice -> real, k: nat)
    requires wf.step > 0 && n >= wf.train + wf.test && k < Windows(wf, n)
    requires forall s :: s != Tested(wf, k) ==> score'(s) == score(s)
    ensures WalkForwardScore(wf, n, score') - WalkForwardScore(wf, n, score)
         == (score'(Tested(wf, k)) - score(Tested(wf, k))) / Windows(wf, n) as real
  {
    var w := Windows(wf, n);
    var slices := Slices(wf, w);
    hide Windows, SumScores, Tested;
    forall i | 0 <= i < w && i != k ensures slices[i] != Tested(wf, k) {
      WindowsDiffer(wf, i, k);
    }
    SumMovesWithOne(score, score', slices, k);
    Quotients(SumScores(score', slices), SumScores(score, slices), w);
  }

  lemma WindowsDiffer(wf: WalkForward, i: nat, k: nat)
    requires wf.step > 0 && i != k
    ensures Tested(wf, i) != Tested(wf, k)
  {
    if i < k {
      StepMono(wf.step, i + 1, k);
      NextStart(wf, i);
    } else {
      StepMono(wf.step, k + 1, i);
      NextStart(wf, k);
    }
  }

  /** `walk_forward_avg`; with a zero step and enough bars the source never leaves its loop. */
  method WalkForwardAvg(wf: WalkForward, n: nat, score: Slice -> real) returns (avg: real, runs: seq<Slice>)
    requires wf.step > 0 || n < wf.train + wf.test
    ensures avg == WalkForwardScore(wf, n, score)
    ensures n < wf.train + wf.test ==> runs == [Slice(0, n)]
    ensures n >= wf.train + wf.test ==>
      && |runs| == Windows(wf, n)
      && (forall k :: 0 <= k < |runs| ==> runs[k] == Tested(wf, k) && wf.train <= runs[k].from <= runs[k].to <= n)
      && Tested(wf, |runs|).to > n
  {
    if n < wf.train + wf.test {
      return score(Slice(0, n)), [Slice(0, n)];
    }
    var agg, windows, start := 0.0, 0, 0;
    runs := [];
    assert Start(wf, 0) == 0;
    hide Start, Windows;
    while start + wf.train + wf.test <= n
      invariant 0 <= windows && start == Start(wf, windows)
      invariant runs == Slices(wf, windows) && agg == SumScores(score, runs)
      invariant forall k :: 0 <= k < windows ==> Tested(wf, k).to <= n
      decreases n - start
    {
      var testStart := start + wf.train;
      var slice := Slice(testStart, testStart + wf.test);
      assert Slices(wf, windows + 1) == runs + [slice];
      assert (runs + [slice])[..|runs|] == runs;
      agg := agg + score(slice);
      runs := runs + [slice];
      NextStart(wf, windows);
      windows := windows + 1;
      start := start + wf.step;
    }
    FitsIffCounted(wf, n, 0);
    FitsIffCounted(wf, n, windows);
    if windows > 0 {
      FitsIffCounted(wf, n, windows - 1);
    }
    assert windows == Windows(wf, n);
    if windows == 0 {
      return 0.0, runs;
    }
    avg := agg / windows as real;
  }

  /** Windows start `step` bars apart from the first bar on, train on `train` bars and test on the next `test`. */
  lemma WindowsAreEvenlySpaced(wf: WalkForward, k: nat)
    ensures Tested(wf, 0) == Slice(wf.train, wf.train + wf.test)
    ensures Tested(wf, k + 1) == Slice(Tested(wf, k).from + wf.step, Tested(wf, k).to + wf.step)
  {
    NextStart(wf, k);
  }

  lemma NextStart(wf: WalkForward, k: nat)
    ensures Start(wf, k + 1) == Start(wf, k) + wf.step
  {
  }

  // ---------------------------------------------------------------------------
  // Grid search
  // ---------------------------------------------------------------------------

  /** `best` is the first of `combos` with the highest score, given one above the least decimal. */
  predicate FirstBest(combos: seq<Params>, score: Params -> real, best: Params, bestScore: real) {
    exists i :: 0 <= i < |combos| && combos[i] == best && score(best) == bestScore
      && (forall j :: 0 <= j < |combos| ==> score(combos[j]) <= bestScore)
      && (forall j :: 0 <= j < i ==> score(combos[j]) < bestScore)
  }

  /** What `grid_search` has found among the combinations seen so far. */
  predicate BestSoFar(combos: seq<Params>, score: Params -> real, best: Params, bestScore: real) {
    if forall j :: 0 <= j < |combos| ==> score(combos[j]) <= DECIMAL_MIN
    then best == map[] && bestScore == DECIMAL_MIN
    else FirstBest(combos, score, best, bestScore)
  }

  lemma OneComboMore(combos: seq<Params>, score: Params -> real, best: Params, bestScore: real, p: Params)
    requires BestSoFar(combos, score, best, bestScore)
    ensures if score(p) > bestScore then BestSoFar(combos + [p], score, p, score(p))
            else BestSoFar(combos + [p], score, best, bestScore)
  {
    var more := combos + [p];
    assert more[|combos|] == p;
    assert forall j :: 0 <= j < |combos| ==> more[j] == combos[j];
  }

  /** `grid_search`: the first combination of the grid with the highest walk-forward score, and no combination
      at all when every score is the least decimal. */
  method GridSearch(wf: WalkForward, n: nat, axes: seq<Axis>, score: (Params, Slice) -> real)
    returns (best: Params, bestScore: real)
    requires Named(axes) && (wf.step > 0 || n < wf.train + wf.test)
    ensures BestSoFar(Product(axes), p => WalkForwardScore(wf, n, s => score(p, s)), best, bestScore)
  {
    hide BestSoFar, Lists;
    var combos := CartesianProduct(axes);
    ghost var value := p => WalkForwardScore(wf, n, s => score(p, s));
    best, bestScore := map[], DECIMAL_MIN;
    NothingYet(value);
    for i := 0 to |combos|
      invariant BestSoFar(combos[..i], value, best, bestScore)
    {
      var params := combos[i];
      var wfScore, _ := WalkForwardAvg(wf, n, s => score(params, s));
      assert combos[..i + 1] == combos[..i] + [params];
      OneComboMore(combos[..i], value, best, bestScore, params);
      if wfScore > bestScore {
        bestScore, best := wfScore, params;
      }
    }
    assert combos[..|combos|] == combos;
  }

  lemma NothingYet(score: Params -> real)
    ensures BestSoFar([], score, map[], DECIMAL_MIN)
  {
  }
}
