/**
 Removing overlapping chart formations: a stable sort by structural rank and quality, then a greedy pass
 that keeps a match only when it shares no pivot bar with one already kept.
 */
module Dedupe {

  datatype Pivot = Pivot(bar: int, price: real, dir: int)
  datatype Match = Match(patternTypeId: int, quality: real, pivots: seq<Pivot>)

  /** `pattern_structural_rank`. */
  function Rank(id: int): int {
    if id == 18 || id == 19 then 4
    else if id == 16 || id == 17 then 3
    else if id == 14 || id == 15 then 2
    else if id == 20 || id == 21 then 1
    else 0
  }

  /** `a` comes strictly before `b`: higher rank, or equal rank and higher quality. */
  predicate Beats(a: Match, b: Match) {
    var ra, rb := Rank(a.patternTypeId), Rank(b.patternTypeId);
    ra > rb || (ra == rb && a.quality > b.quality)
  }

  /** Triple tops and bottoms rank above head and shoulders, these above double ones, these above flags, and these
      above the rest. */
  lemma RanksFall(a: int, b: int)
    requires a in {18, 19} && b !in {18, 19}
    ensures Rank(a) > Rank(b)
    ensures b !in {16, 17} ==> Rank(16) == Rank(17) > Rank(b)
    ensures b !in {14, 15, 16, 17} ==> Rank(14) == Rank(15) > Rank(b)
    ensures b !in {14, 15, 16, 17, 20, 21} ==> Rank(20) == Rank(21) > Rank(b)
  {
  }

  /** A kept match may displace another: it ranks higher, or ranks the same and is no worse. */
  predicate Precedes(k: Match, m: Match) {
    || Rank(k.patternTypeId) > Rank(m.patternTypeId)
    || (Rank(k.patternTypeId) == Rank(m.patternTypeId) && k.quality >= m.quality)
  }

  predicate SharesBar(a: Match, b: Match) {
    exists p, q :: p in a.pivots && q in b.pivots && p.bar == q.bar
  }

  // ---------------------------------------------------------------------------
  // The sort
  // ---------------------------------------------------------------------------

  predicate Ordered(s: seq<Match>) { forall i, j :: 0 <= i < j < |s| ==> !Beats(s[j], s[i]) }

  /** `m` goes behind everything it does not beat. */
  function Place(s: seq<Match>, m: Match): seq<Match> {
    if s != [] && Beats(m, s[|s| - 1]) then Place(s[..|s| - 1], m) + [s[|s| - 1]] else s + [m]
  }

  /** The stable sort of the standard library. */
  function Sorted(v: seq<Match>): seq<Match> {
    if v == [] then [] else Place(Sorted(v[..|v| - 1]), v[|v| - 1])
  }

  lemma {:induction false} PlaceKeepsAll(s: seq<Match>, m: Match)
    ensures multiset(Place(s, m)) == multiset(s) + multiset{m}
    decreases |s|
  {
    if s != [] {
      assert s == s[..|s| - 1] + [s[|s| - 1]];
      PlaceKeepsAll(s[..|s| - 1], m);
    }
  }

  lemma {:induction false} SortedKeepsAll(v: seq<Match>)
    ensures multiset(Sorted(v)) == multiset(v)
    decreases |v|
  {
    if v != [] {
      assert v == v[..|v| - 1] + [v[|v| - 1]];
      SortedKeepsAll(v[..|v| - 1]);
      PlaceKeepsAll(Sorted(v[..|v| - 1]), v[|v| - 1]);
    }
  }

  lemma SameElements(s: seq<Match>, t: seq<Match>)
    requires multiset(s) == multiset(t)
    ensures forall x :: x in s <==> x in t
  {
    forall x ensures x in s <==> x in t {
      assert x in s <==> x in multiset(s);
      assert x in t <==> x in multiset(t);
    }
  }

  lemma NoBetterThrough(a: Match, b: Match, c: Match)
    ensures !Beats(a, b) && (b == c || !Beats(b, c)) ==> !Beats(a, c)
  {
  }

  lemma {:induction false} PlaceKeepsOrder(s: seq<Match>, m: Match)
    requires Ordered(s)
    ensures Ordered(Place(s, m))
    decreases |s|
  {
    if s != [] && Beats(m, s[|s| - 1]) {
      var front, last := s[..|s| - 1], s[|s| - 1];
      PlaceKeepsOrder(front, m);
      PlaceKeepsAll(front, m);
      assert multiset(Place(front, m)) == multiset(front + [m]);
      SameElements(Place(front, m), front + [m]);
      forall x | x in Place(front, m) ensures !Beats(last, x) {
        assert x in front || x == m;
      }
    } else {
      forall i | 0 <= i < |s| ensures !Beats(m, s[i]) {
        NoBetterThrough(m, s[|s| - 1], s[i]);
      }
    }
  }

  lemma {:induction false} SortedIsOrdered(v: seq<Match>)
    ensures Ordered(Sorted(v))
    decreases |v|
  {
    if v != [] {
      SortedIsOrdered(v[..|v| - 1]);
      PlaceKeepsOrder(Sorted(v[..|v| - 1]), v[|v| - 1]);
    }
  }

  lemma PlaceAtEnd(s: seq<Match>, m: Match)
    requires s == [] || !Beats(m, s[|s| - 1])
    ensures Place(s, m) == s + [m]
  {
  }

  /** Sorting what is in order changes nothing: the sort is stable. */
  lemma {:induction false} OrderedStaysPut(v: seq<Match>)
    requires Ordered(v)
    ensures Sorted(v) == v
    decreases |v|
  {
    hide Beats, Place;
    if v != [] {
      var front, last := v[..|v| - 1], v[|v| - 1];
      OrderedStaysPut(front);
      PlaceAtEnd(front, last);
      assert v == front + [last];
    }
  }

  // ---------------------------------------------------------------------------
  // The greedy pass
  // ---------------------------------------------------------------------------

  predicate Clashes(kept: seq<Match>, m: Match) { exists k :: k in kept && SharesBar(k, m) }

  function Greedy(s: seq<Match>): seq<Match> {
    if s == [] then []
    else
      var kept, m := Greedy(s[..|s| - 1]), s[|s| - 1];
      if Clashes(kept, m) then kept else kept + [m]
  }

  function Deduped(v: seq<Match>): seq<Match> { Greedy(Sorted(v)) }

  predicate PairwiseFree(s: seq<Match>) { forall i, j :: 0 <= i < j < |s| ==> !SharesBar(s[i], s[j]) }

  lemma {:induction false} GreedyIsFree(s: seq<Match>)
    ensures PairwiseFree(Greedy(s))
    decreases |s|
  {
    hide SharesBar;
    if s != [] {
      GreedyIsFree(s[..|s| - 1]);
    }
  }

  /** Every match is kept, or shares a bar with a kept one that it does not beat. */
  lemma {:induction false} DroppedIsCovered(s: seq<Match>, m: Match)
    requires Ordered(s) && m in s
    ensures m in Greedy(s) || exists k :: k in Greedy(s) && SharesBar(k, m) && !Beats(m, k)
    decreases |s|
  {
    hide SharesBar, Beats;
    var front, last := s[..|s| - 1], s[|s| - 1];
    assert s == front + [last];
    if m in front {
      DroppedIsCovered(front, m);
    } else if Clashes(Greedy(front), m) {
      var k :| k in Greedy(front) && SharesBar(k, m);
      GreedyKeepsSome(front, k);
    }
  }

  lemma {:induction false} GreedyKeepsSome(s: seq<Match>, k: Match)
    requires k in Greedy(s)
    ensures k in s
    decreases |s|
  {
    if k !in Greedy(s[..|s| - 1]) {
    } else {
      GreedyKeepsSome(s[..|s| - 1], k);
    }
  }

  /** What is kept is part of the input, each as often at most. */
  lemma {:induction false} GreedyIsPart(s: seq<Match>)
    ensures multiset(Greedy(s)) <= multiset(s)
    decreases |s|
  {
    if s != [] {
      GreedyIsPart(s[..|s| - 1]);
      assert s == s[..|s| - 1] + [s[|s| - 1]];
    }
  }

  lemma {:induction false} GreedyKeepsOrder(s: seq<Match>)
    requires Ordered(s)
    ensures Ordered(Greedy(s))
    decreases |s|
  {
    if s != [] {
      var front, last := s[..|s| - 1], s[|s| - 1];
      GreedyKeepsOrder(front);
      forall k | k in Greedy(front) ensures !Beats(last, k) {
        GreedyKeepsSome(front, k);
      }
    }
  }

  lemma {:induction false} FreeStaysPut(s: seq<Match>)
    requires PairwiseFree(s)
    ensures Greedy(s) == s
    decreases |s|
  {
    hide SharesBar;
    if s != [] {
      var front, last := s[..|s| - 1], s[|s| - 1];
      FreeStaysPut(front);
      assert s == front + [last];
      forall k | k in front ensures !SharesBar(k, last) {
        var i :| 0 <= i < |front| && front[i] == k;
        assert !SharesBar(s[i], s[|s| - 1]);
      }
    }
  }

  // ---------------------------------------------------------------------------
  // Results
  // ---------------------------------------------------------------------------

  /** The output is free of shared bars, part of the input, and covers everything it dropped. */
  lemma DedupedIsMaximalFree(v: seq<Match>)
    ensures PairwiseFree(Deduped(v))
    ensures multiset(Deduped(v)) <= multiset(v)
    ensures forall m :: m in v && m !in Deduped(v) ==> exists k :: k in Deduped(v) && SharesBar(k, m) && !Beats(m, k)
  {
    hide SharesBar, Beats, Sorted, Greedy;
    var s := Sorted(v);
    SortedIsOrdered(v);
    SortedKeepsAll(v);
    GreedyIsFree(s);
    GreedyIsPart(s);
    SameElements(s, v);
    forall m | m in v && m !in Greedy(s) ensures exists k :: k in Greedy(s) && SharesBar(k, m) && !Beats(m, k) {
      DroppedIsCovered(s, m);
    }
  }

  /** The same, written out: no two kept matches have a pivot at one bar, and every dropped one shares a bar with a
      kept one that ranks higher, or ranks the same and has at least its quality. */
  lemma DedupedInFull(v: seq<Match>)
    ensures multiset(Deduped(v)) <= multiset(v)
    ensures forall i, j, p, q ::
              0 <= i < j < |Deduped(v)| && p in Deduped(v)[i].pivots && q in Deduped(v)[j].pivots ==> p.bar != q.bar
    ensures forall m :: m in v && m !in Deduped(v) ==>
              exists k, p, q :: k in Deduped(v) && p in k.pivots && q in m.pivots && p.bar == q.bar && Precedes(k, m)
  {
    hide Deduped, Beats, Precedes, SharesBar;
    DedupedIsMaximalFree(v);
    var out := Deduped(v);
    forall i, j, p, q | 0 <= i < j < |out| && p in out[i].pivots && q in out[j].pivots ensures p.bar != q.bar {
      assert !SharesBar(out[i], out[j]);
      NoBarShared(out[i], out[j], p, q);
    }
    forall m | m in v && m !in out
      ensures exists k, p, q :: k in out && p in k.pivots && q in m.pivots && p.bar == q.bar && Precedes(k, m)
    {
      var k :| k in out && SharesBar(k, m) && !Beats(m, k);
      var p, q := BarShared(k, m);
      NotBeaten(k, m);
    }
  }

  lemma NoBarShared(a: Match, b: Match, p: Pivot, q: Pivot)
    requires !SharesBar(a, b) && p in a.pivots && q in b.pivots
    ensures p.bar != q.bar
  {
  }

  lemma BarShared(a: Match, b: Match) returns (p: Pivot, q: Pivot)
    requires SharesBar(a, b)
    ensures p in a.pivots && q in b.pivots && p.bar == q.bar
  {
    p, q :| p in a.pivots && q in b.pivots && p.bar == q.bar;
  }

  lemma NotBeaten(k: Match, m: Match)
    requires !Beats(m, k)
    ensures Precedes(k, m)
  {
  }

  /** Running it again changes nothing. */
  lemma DedupeIsIdempotent(v: seq<Match>)
    ensures Deduped(Deduped(v)) == Deduped(v)
  {
    hide *;
    SortedIsOrdered(v);
    GreedyKeepsOrder(Sorted(v));
    GreedyIsFree(Sorted(v));
    DedupedTwice(v);
  }

  lemma DedupedTwice(v: seq<Match>)
    requires Ordered(Greedy(Sorted(v))) && PairwiseFree(Greedy(Sorted(v)))
    ensures Deduped(Deduped(v)) == Deduped(v)
  {
    hide Ordered, PairwiseFree, Sorted, Greedy;
    OrderedStaysPut(Greedy(Sorted(v)));
    FreeStaysPut(Greedy(Sorted(v)));
  }

  /** No two matches tie. */
  predicate Strict(v: seq<Match>) {
    && (forall x :: x in v ==> multiset(v)[x] == 1)
    && forall x, y :: x in v && y in v && x != y ==> Beats(x, y) || Beats(y, x)
  }

  predicate Falling(s: seq<Match>) { forall i, j :: 0 <= i < j < |s| ==> Beats(s[i], s[j]) }

  lemma HeadsAgree(s: seq<Match>, t: seq<Match>)
    requires Falling(s) && Falling(t) && s != [] && t != [] && s[0] in t && t[0] in s
    ensures s[0] == t[0]
  {
    var i :| 0 <= i < |t| && t[i] == s[0];
    var j :| 0 <= j < |s| && s[j] == t[0];
  }

  lemma AllButFirst(s: seq<Match>)
    requires s != []
    ensures multiset(s[1..]) == multiset(s) - multiset{s[0]}
  {
    assert s == [s[0]] + s[1..];
  }

  lemma {:induction false} FallingIsUnique(s: seq<Match>, t: seq<Match>)
    requires Falling(s) && Falling(t) && multiset(s) == multiset(t)
    ensures s == t
    decreases |s|
  {
    hide Beats;
    assert |s| == |multiset(s)| == |multiset(t)| == |t|;
    if s != [] {
      SameElements(s, t);
      HeadsAgree(s, t);
      AllButFirst(s);
      AllButFirst(t);
      FallingIsUnique(s[1..], t[1..]);
      assert s == [s[0]] + s[1..] && t == [t[0]] + t[1..];
    }
  }

  lemma OnceEach(s: seq<Match>, i: nat, j: nat)
    requires i < j < |s| && multiset(s)[s[j]] == 1
    ensures s[i] != s[j]
  {
    assert s == s[..j] + [s[j]] + s[j + 1..];
    assert s[i] in s[..j];
    assert multiset(s) == multiset(s[..j]) + multiset{s[j]} + multiset(s[j + 1..]);
  }

  lemma OrderedStrictFalls(s: seq<Match>)
    requires Ordered(s) && Strict(s)
    ensures Falling(s)
  {
    hide Beats;
    forall i, j | 0 <= i < j < |s| ensures Beats(s[i], s[j]) {
      OnceEach(s, i, j);
    }
  }

  lemma SortedFalls(v: seq<Match>, w: seq<Match>)
    requires Strict(v) && multiset(v) == multiset(w)
    ensures Falling(Sorted(w)) && multiset(Sorted(w)) == multiset(v)
  {
    hide Beats, Sorted, Falling;
    SortedKeepsAll(w);
    SortedIsOrdered(w);
    SameElements(Sorted(w), v);
    OrderedStrictFalls(Sorted(w));
  }

  /** Without ties the order of the input does not matter. */
  lemma DedupeIgnoresOrder(v: seq<Match>, w: seq<Match>)
    requires Strict(v) && multiset(v) == multiset(w)
    ensures Deduped(v) == Deduped(w)
  {
    hide Strict, Falling, Sorted, Greedy;
    SortedFalls(v, v);
    SortedFalls(v, w);
    FallingIsUnique(Sorted(v), Sorted(w));
  }

  /** The loops of `dedupe_formations_greedy_by_pivot_overlap`. */
  method DedupeFormations(v: seq<Match>) returns (out: seq<Match>)
    ensures out == Deduped(v)
    ensures multiset(out) <= multiset(v)
    ensures forall i, j, p, q :: 0 <= i < j < |out| && p in out[i].pivots && q in out[j].pivots ==> p.bar != q.bar
    ensures forall m :: m in v && m !in out ==>
              exists k, p, q :: k in out && p in k.pivots && q in m.pivots && p.bar == q.bar && Precedes(k, m)
  {
    var s := StableSort(v);
    out := [];
    for i := 0 to |s|
      invariant out == Greedy(s[..i])
    {
      var m := s[i];
      assert s[..i + 1][..i] == s[..i];
      var clash := false;
      for k := 0 to |out|
        invariant clash <==> Clashes(out[..k], m)
      {
        assert out[..k + 1] == out[..k] + [out[k]];
        if SharesBar(out[k], m) {
          clash := true;
        }
      }
      assert out[..|out|] == out;
      if !clash {
        out := out + [m];
      }
    }
    assert s[..|s|] == s;
    DedupedInFull(v);
  }

  method StableSort(v: seq<Match>) returns (s: seq<Match>)
    ensures s == Sorted(v)
  {
    s := [];
    for i := 0 to |v|
      invariant s == Sorted(v[..i])
    {
      assert v[..i + 1][..i] == v[..i];
      s := Place(s, v[i]);
    }
    assert v[..|v|] == v;
  }
}
