/**
 The outer loop of the channel finder: windows of pivots from the newest backwards, on every zigzag level,
 until enough channels are found, with the ranges of accepted windows added to those to avoid.
 The zigzag levels are arbitrary lists of pivots in chronological order.
 */
module ChannelAnalyze {
  import opened ChannelScan
  import opened Options

  const ZIGZAG_FLOOR: nat := 6

  datatype Job = Job(
    bars: Bars, params: Params, allowed: Option<seq<int>>, filter: WindowFilter, tailSkipMax: nat, maxMatches: nat)

  datatype Outcome = Outcome(scan: Scan, pivots: seq<Pivot>, skip: nat, level: nat)

  predicate Ready(job: Job) { job.params.pivots >= 5 }

  /** `n_pivots_chrono_tail_skip`: the `n` pivots that end `skip` before the newest. */
  function Window(pivots: seq<Pivot>, n: nat, skip: nat): seq<Pivot>
    requires n + skip <= |pivots|
  {
    pivots[|pivots| - n - skip..|pivots| - skip]
  }

  function Needed(job: Job): nat { if job.params.pivots > ZIGZAG_FLOOR then job.params.pivots else ZIGZAG_FLOOR }

  /** How many windows of a level are tried. */
  function Tries(job: Job, pivots: seq<Pivot>): nat {
    if |pivots| < Needed(job) then 0
    else (if job.tailSkipMax < |pivots| - job.params.pivots then job.tailSkipMax else |pivots| - job.params.pivots) + 1
  }

  function MatchLimit(job: Job): (n: nat)
    ensures 1 <= n <= 32
    ensures 1 <= job.maxMatches <= 32 ==> n == job.maxMatches
    ensures job.maxMatches < 1 ==> n == 1
    ensures job.maxMatches > 32 ==> n == 32
  {
    if job.maxMatches < 1 then 1 else if job.maxMatches > 32 then 32 else job.maxMatches
  }

  function RangeOf(pivots: seq<Pivot>): (int, int) {
    if pivots == [] then (0, 0) else (LowestBar(pivots), HighestBar(pivots))
  }

  /** The ranges to stay out of: the caller's, then those of the channels found so far. */
  function Ranges(job: Job, found: seq<Outcome>): seq<(int, int)> {
    if found == [] then job.filter.existingRanges
    else
      var before := Ranges(job, found[..|found| - 1]);
      if job.filter.avoidOverlap then before + [RangeOf(found[|found| - 1].pivots)] else before
  }

  /** The channels found after trying one more window. */
  function Tried(job: Job, found: seq<Outcome>, level: nat, pivots: seq<Pivot>, skip: nat): seq<Outcome>
    requires Ready(job) && job.params.pivots + skip <= |pivots|
  {
    if |found| >= MatchLimit(job) then found
    else
      var w := Window(pivots, job.params.pivots, skip);
      match TryScan(w, job.bars, job.params, job.allowed, job.filter.(existingRanges := Ranges(job, found)))
      case Ok(scan) => found + [Outcome(scan, w, skip, level)]
      case Err(_) => found
  }

  function Level(job: Job, found: seq<Outcome>, level: nat, pivots: seq<Pivot>, tries: nat): seq<Outcome>
    requires Ready(job) && tries <= Tries(job, pivots)
  {
    if tries == 0 then found else Tried(job, Level(job, found, level, pivots, tries - 1), level, pivots, tries - 1)
  }

  function Levels(job: Job, levels: seq<seq<Pivot>>): seq<Outcome>
    requires Ready(job)
  {
    if levels == [] then []
    else
      var k := |levels| - 1;
      Level(job, Levels(job, levels[..k]), k, levels[k], Tries(job, levels[k]))
  }

  lemma FullTry(job: Job, found: seq<Outcome>, level: nat, pivots: seq<Pivot>, skip: nat)
    requires Ready(job) && job.params.pivots + skip <= |pivots| && |found| >= MatchLimit(job)
    ensures Tried(job, found, level, pivots, skip) == found
  {
  }

  lemma {:induction false} FullStaysPut(job: Job, found: seq<Outcome>, level: nat, pivots: seq<Pivot>, tries: nat)
    requires Ready(job) && tries <= Tries(job, pivots) && |found| >= MatchLimit(job)
    ensures Level(job, found, level, pivots, tries) == found
    decreases tries
  {
    hide Tried, MatchLimit;
    if tries > 0 {
      FullStaysPut(job, found, level, pivots, tries - 1);
      FullTry(job, found, level, pivots, tries - 1);
    }
  }

  lemma {:induction false} MoreLevelsStayPut(job: Job, levels: seq<seq<Pivot>>, k: nat)
    requires Ready(job) && k <= |levels| && |Levels(job, levels[..k])| >= MatchLimit(job)
    ensures Levels(job, levels) == Levels(job, levels[..k])
    decreases |levels|
  {
    hide Level;
    if k < |levels| {
      var last := |levels| - 1;
      assert levels[..last][..k] == levels[..k];
      MoreLevelsStayPut(job, levels[..last], k);
      FullStaysPut(job, Levels(job, levels[..last]), last, levels[last], Tries(job, levels[last]));
    } else {
      assert levels[..k] == levels;
    }
  }

  lemma {:induction false} RestOfLevelStaysPut(job: Job, found: seq<Outcome>, level: nat, pivots: seq<Pivot>, tries: nat, all: nat)
    requires Ready(job) && tries <= all <= Tries(job, pivots)
    requires |Level(job, found, level, pivots, tries)| >= MatchLimit(job)
    ensures Level(job, found, level, pivots, all) == Level(job, found, level, pivots, tries)
    decreases all
  {
    hide Tried, MatchLimit;
    if tries < all {
      RestOfLevelStaysPut(job, found, level, pivots, tries, all - 1);
      FullTry(job, Level(job, found, level, pivots, all - 1), level, pivots, all - 1);
    }
  }

  /** The loops of `analyze_channel_six_from_bars`. */
  method Analyze(job: Job, levels: seq<seq<Pivot>>) returns (outcomes: seq<Outcome>)
    requires Ready(job)
    ensures outcomes == if job.bars == map[] then [] else Levels(job, levels)
  {
    hide TryScan, Level, Levels, Ranges, MatchLimit, RangeOf;
    outcomes := [];
    if job.bars == map[] {
      return;
    }
    var overlapRanges := job.filter.existingRanges;
    Start(job);
    for k := 0 to |levels|
      invariant outcomes == Levels(job, levels[..k]) && overlapRanges == Ranges(job, outcomes)
      invariant |outcomes| < MatchLimit(job)
    {
      var pivots := levels[k];
      ghost var before := outcomes;
      if |pivots| >= Needed(job) {
        var maxSkip := Tries(job, pivots) - 1;
        NoTries(job, before, k, pivots);
        for skip := 0 to maxSkip + 1
          invariant outcomes == Level(job, before, k, pivots, skip) && overlapRanges == Ranges(job, outcomes)
          invariant |outcomes| < MatchLimit(job)
        {
          var window := Window(pivots, job.params.pivots, skip);
          OneTryMore(job, before, k, pivots, skip);
          match TryScan(window, job.bars, job.params, job.allowed, job.filter.(existingRanges := overlapRanges))
          case Ok(scan) =>
            RangesGrow(job, outcomes, Outcome(scan, window, skip, k));
            outcomes := outcomes + [Outcome(scan, window, skip, k)];
            if job.filter.avoidOverlap {
              overlapRanges := overlapRanges + [RangeOf(window)];
            }
            if |outcomes| >= MatchLimit(job) {
              RestOfLevelStaysPut(job, before, k, pivots, skip + 1, Tries(job, pivots));
              OneLevelMore(job, levels, k);
              MoreLevelsStayPut(job, levels, k + 1);
              return;
            }
          case Err(_) =>
        }
      } else {
        NoTries(job, before, k, pivots);
      }
      OneLevelMore(job, levels, k);
    }
    assert levels[..|levels|] == levels;
  }

  lemma Start(job: Job)
    requires Ready(job)
    ensures Levels(job, []) == [] && Ranges(job, []) == job.filter.existingRanges
  {
  }

  lemma NoTries(job: Job, found: seq<Outcome>, level: nat, pivots: seq<Pivot>)
    requires Ready(job)
    ensures Level(job, found, level, pivots, 0) == found
  {
  }

  lemma OneTryMore(job: Job, found: seq<Outcome>, level: nat, pivots: seq<Pivot>, tries: nat)
    requires Ready(job) && tries < Tries(job, pivots)
    ensures job.params.pivots + tries <= |pivots|
    ensures Level(job, found, level, pivots, tries + 1) == Tried(job, Level(job, found, level, pivots, tries), level, pivots, tries)
  {
  }

  lemma OneLevelMore(job: Job, levels: seq<seq<Pivot>>, k: nat)
    requires Ready(job) && k < |levels|
    ensures Levels(job, levels[..k + 1]) == Level(job, Levels(job, levels[..k]), k, levels[k], Tries(job, levels[k]))
  {
    assert levels[..k + 1][..k] == levels[..k];
  }

  lemma RangesGrow(job: Job, found: seq<Outcome>, o: Outcome)
    ensures Ranges(job, found + [o]) ==
      if job.filter.avoidOverlap then Ranges(job, found) + [RangeOf(o.pivots)] else Ranges(job, found)
  {
    assert (found + [o])[..|found|] == found;
  }

  // ---------------------------------------------------------------------------
  // What the outcomes are
  // ---------------------------------------------------------------------------

  predicate StrictlyInside(bar: int, r: (int, int)) { MinInt(r.0, r.1) < bar < MaxInt(r.0, r.1) }

  /** `o` is a channel of the plain scanner that passes the filters, given the channels found before it. */
  predicate Genuine(job: Job, before: seq<Outcome>, o: Outcome)
    requires Ready(job)
  {
    && |o.pivots| == job.params.pivots
    && ScanPivots(o.pivots, job.bars, job.params) == Some(o.scan)
    && PassesFilters(o.scan, o.pivots, job.bars, job.params, job.allowed, job.filter.(existingRanges := Ranges(job, before)))
  }

  predicate AllGenuine(job: Job, found: seq<Outcome>)
    requires Ready(job)
  {
    && |found| <= MatchLimit(job)
    && forall i :: 0 <= i < |found| ==> Genuine(job, found[..i], found[i])
  }

  lemma TriedKeepsGenuine(job: Job, found: seq<Outcome>, level: nat, pivots: seq<Pivot>, skip: nat)
    requires Ready(job) && job.params.pivots + skip <= |pivots| && AllGenuine(job, found)
    ensures AllGenuine(job, Tried(job, found, level, pivots, skip))
  {
    hide TryScan, ScanPivots, PassesFilters, Ranges;
    var w := Window(pivots, job.params.pivots, skip);
    var filter := job.filter.(existingRanges := Ranges(job, found));
    match TryScan(w, job.bars, job.params, job.allowed, filter)
    case Ok(scan) =>
      TryScanIsFilteredScan(w, job.bars, job.params, job.allowed, filter, scan);
      var more := found + [Outcome(scan, w, skip, level)];
      assert more[..|found|] == found;
      assert forall i :: 0 <= i < |found| ==> more[..i] == found[..i];
    case Err(_) =>
  }

  lemma {:induction false} LevelKeepsGenuine(job: Job, found: seq<Outcome>, level: nat, pivots: seq<Pivot>, tries: nat)
    requires Ready(job) && tries <= Tries(job, pivots) && AllGenuine(job, found)
    ensures AllGenuine(job, Level(job, found, level, pivots, tries))
    decreases tries
  {
    hide AllGenuine, Tried;
    if tries > 0 {
      LevelKeepsGenuine(job, found, level, pivots, tries - 1);
      TriedKeepsGenuine(job, Level(job, found, level, pivots, tries - 1), level, pivots, tries - 1);
    }
  }

  /** On any levels: at most the limit, and every channel is one the plain scanner reports for its own window
      and that passed the filters when it was tried. */
  lemma {:induction false} OutcomesAreGenuine(job: Job, levels: seq<seq<Pivot>>)
    requires Ready(job)
    ensures AllGenuine(job, Levels(job, levels))
    decreases |levels|
  {
    hide Genuine, Level;
    if levels != [] {
      var k := |levels| - 1;
      OutcomesAreGenuine(job, levels[..k]);
      LevelKeepsGenuine(job, Levels(job, levels[..k]), k, levels[k], Tries(job, levels[k]));
    }
  }

  /** `o` is found in the window it records, and that window was to be tried. */
  predicate Located(job: Job, levels: seq<seq<Pivot>>, o: Outcome)
    requires Ready(job)
  {
    && o.level < |levels| && o.skip < Tries(job, levels[o.level])
    && o.pivots == Window(levels[o.level], job.params.pivots, o.skip)
  }

  /** Of two outcomes the later one lies on a higher level, or further back on the same one. */
  predicate Behind(o: Outcome, o': Outcome) { o.level < o'.level || (o.level == o'.level && o.skip < o'.skip) }

  /** Everything in `found` is located and stands before window `skip` of level `level`, in the order of trying. */
  predicate InOrder(job: Job, levels: seq<seq<Pivot>>, found: seq<Outcome>, level: nat, skip: nat)
    requires Ready(job)
  {
    && (forall i {:trigger Located(job, levels, found[i])} :: 0 <= i < |found| ==> Located(job, levels, found[i]))
    && (forall i, j {:trigger Behind(found[i], found[j])} :: 0 <= i < j < |found| ==> Behind(found[i], found[j]))
    && (forall i :: 0 <= i < |found| ==> found[i].level < level || (found[i].level == level && found[i].skip < skip))
  }

  lemma TriedKeepsOrder(job: Job, levels: seq<seq<Pivot>>, found: seq<Outcome>, level: nat, skip: nat)
    requires Ready(job) && level < |levels| && skip < Tries(job, levels[level])
    requires InOrder(job, levels, found, level, skip)
    ensures InOrder(job, levels, Tried(job, found, level, levels[level], skip), level, skip + 1)
  {
    hide TryScan, Ranges;
  }

  lemma {:induction false} LevelKeepsOrder(job: Job, levels: seq<seq<Pivot>>, found: seq<Outcome>, level: nat, tries: nat)
    requires Ready(job) && level < |levels| && tries <= Tries(job, levels[level])
    requires InOrder(job, levels, found, level, 0)
    ensures InOrder(job, levels, Level(job, found, level, levels[level], tries), level, tries)
    decreases tries
  {
    hide InOrder, Tried;
    if tries > 0 {
      LevelKeepsOrder(job, levels, found, level, tries - 1);
      TriedKeepsOrder(job, levels, Level(job, found, level, levels[level], tries - 1), level, tries - 1);
    }
  }

  lemma NextLevel(job: Job, levels: seq<seq<Pivot>>, found: seq<Outcome>, level: nat, skip: nat)
    requires Ready(job) && InOrder(job, levels, found, level, skip)
    ensures InOrder(job, levels, found, level + 1, 0)
  {
    hide Located;
  }

  lemma {:induction false} LevelsKeepOrder(job: Job, levels: seq<seq<Pivot>>, k: nat)
    requires Ready(job) && k <= |levels|
    ensures InOrder(job, levels, Levels(job, levels[..k]), k, 0)
    decreases k
  {
    hide InOrder, Level;
    if k > 0 {
      LevelsKeepOrder(job, levels, k - 1);
      OneLevelMore(job, levels, k - 1);
      var tries := Tries(job, levels[k - 1]);
      LevelKeepsOrder(job, levels, Levels(job, levels[..k - 1]), k - 1, tries);
      NextLevel(job, levels, Levels(job, levels[..k]), k - 1, tries);
    } else {
      NothingInOrder(job, levels);
    }
  }

  lemma NothingInOrder(job: Job, levels: seq<seq<Pivot>>)
    requires Ready(job)
    ensures InOrder(job, levels, [], 0, 0)
  {
  }

  /** Window `skip` of a level may be tried: the level has six pivots at least, and the pivots suffice. */
  predicate Available(job: Job, pivots: seq<Pivot>, skip: nat) {
    |pivots| >= 6 && job.params.pivots + skip <= |pivots| && skip <= job.tailSkipMax
  }

  lemma AvailableIsTried(job: Job, pivots: seq<Pivot>, skip: nat)
    ensures skip < Tries(job, pivots) <==> Available(job, pivots, skip)
  {
  }

  /** Every channel stands in the window it records, an available one, and no window is reported twice: outcomes come
      level by level and, within a level, from the newest pivots backwards. */
  lemma OutcomesAreLocated(job: Job, levels: seq<seq<Pivot>>)
    requires Ready(job)
    ensures var found := Levels(job, levels);
            && (forall i :: 0 <= i < |found| ==>
                  var o := found[i];
                  && o.level < |levels| && Available(job, levels[o.level], o.skip)
                  && var end := |levels[o.level]| - o.skip; o.pivots == levels[o.level][end - job.params.pivots..end])
            && (forall i, j :: 0 <= i < j < |found| ==> Behind(found[i], found[j]))
  {
    hide Levels, Behind;
    LevelsKeepOrder(job, levels, |levels|);
    assert levels[..|levels|] == levels;
    var found := Levels(job, levels);
    forall i | 0 <= i < |found|
      ensures var o := found[i];
              && o.level < |levels| && Available(job, levels[o.level], o.skip)
              && var end := |levels[o.level]| - o.skip; o.pivots == levels[o.level][end - job.params.pivots..end]
    {
      assert Located(job, levels, found[i]);
      AvailableIsTried(job, levels[found[i].level], found[i].skip);
    }
  }

  lemma TriedExtends(job: Job, found: seq<Outcome>, level: nat, pivots: seq<Pivot>, skip: nat)
    requires Ready(job) && job.params.pivots + skip <= |pivots|
    ensures found <= Tried(job, found, level, pivots, skip)
  {
    hide TryScan, Ranges;
  }

  lemma {:induction false} LevelExtends(job: Job, found: seq<Outcome>, level: nat, pivots: seq<Pivot>, tries: nat, more: nat)
    requires Ready(job) && tries <= more <= Tries(job, pivots)
    ensures Level(job, found, level, pivots, tries) <= Level(job, found, level, pivots, more)
    decreases more
  {
    hide Tried;
    if tries < more {
      LevelExtends(job, found, level, pivots, tries, more - 1);
      OneTryMore(job, found, level, pivots, more - 1);
      TriedExtends(job, Level(job, found, level, pivots, more - 1), level, pivots, more - 1);
    }
  }

  lemma {:induction false} LevelsExtend(job: Job, levels: seq<seq<Pivot>>, k: nat, more: nat)
    requires Ready(job) && k <= more <= |levels|
    ensures Levels(job, levels[..k]) <= Levels(job, levels[..more])
    decreases more
  {
    hide Levels, Level;
    if k < more {
      LevelsExtend(job, levels, k, more - 1);
      OneLevelMore(job, levels, more - 1);
      var found := Levels(job, levels[..more - 1]);
      NoTries(job, found, more - 1, levels[more - 1]);
      LevelExtends(job, found, more - 1, levels[more - 1], 0, Tries(job, levels[more - 1]));
    }
  }

  /** Window `skip` of level `level` was refused in view of the first `m` channels, or is the one reported next. */
  predicate Answered(job: Job, levels: seq<seq<Pivot>>, found: seq<Outcome>, level: nat, skip: nat, m: nat)
    requires Ready(job) && level < |levels| && Available(job, levels[level], skip) && m <= |found|
  {
    var end := |levels[level]| - skip;
    var w := levels[level][end - job.params.pivots..end];
    match TryScan(w, job.bars, job.params, job.allowed, job.filter.(existingRanges := Ranges(job, found[..m])))
    case Err(_) => true
    case Ok(scan) => m < |found| && found[m] == Outcome(scan, w, skip, level)
  }

  /** Nothing is missed: while there is room for more channels, every available window is either refused by the scanner,
      given the channels found before it, or reported. */
  lemma EveryWindowIsAnswered(job: Job, levels: seq<seq<Pivot>>, level: nat, skip: nat)
    requires Ready(job) && level < |levels| && Available(job, levels[level], skip)
    requires |Levels(job, levels)| < MatchLimit(job)
    ensures exists m :: 0 <= m <= |Levels(job, levels)| && Answered(job, levels, Levels(job, levels), level, skip, m)
  {
    hide Levels, Level, TryScan, Ranges, MatchLimit;
    var pivots, found := levels[level], Levels(job, levels);
    AvailableIsTried(job, pivots, skip);
    var start := Levels(job, levels[..level]);
    var before := Level(job, start, level, pivots, skip);
    OneTryMore(job, start, level, pivots, skip);
    LevelExtends(job, start, level, pivots, skip + 1, Tries(job, pivots));
    OneLevelMore(job, levels, level);
    LevelsExtend(job, levels, level + 1, |levels|);
    assert levels[..|levels|] == levels;
    TriedExtends(job, before, level, pivots, skip);
    assert found[..|before|] == before;
    assert Answered(job, levels, found, level, skip, |before|);
  }

  lemma {:induction false} RangesHold(job: Job, found: seq<Outcome>, i: nat)
    requires job.filter.avoidOverlap && i < |found|
    ensures RangeOf(found[i].pivots) in Ranges(job, found)
    decreases |found|
  {
    if i < |found| - 1 {
      RangesHold(job, found[..|found| - 1], i);
    }
  }

  /** When overlaps are to be avoided no channel starts strictly inside one found before it. */
  lemma NoStartInsideEarlier(job: Job, levels: seq<seq<Pivot>>, i: nat, j: nat)
    requires Ready(job) && job.filter.avoidOverlap && i < j < |Levels(job, levels)|
    ensures var found := Levels(job, levels);
            && found[i].pivots != [] && found[j].pivots != []
            && forall q, q' :: q in found[i].pivots && q' in found[i].pivots ==> !(q.bar < found[j].pivots[0].bar < q'.bar)
  {
    var found := Levels(job, levels);
    OutcomesAreGenuine(job, levels);
    assert Genuine(job, found[..j], found[j]);
    assert Genuine(job, found[..i], found[i]);
    RangesHold(job, found[..j], i);
    BarExtremesAreAttained(found[i].pivots);
    hide Levels, ScanPivots, Ranges, SizeOk, Duplicates, LastDirectionOk, EntryInChannel;
    var ranges := Ranges(job, found[..j]);
    var r :| 0 <= r < |ranges| && ranges[r] == RangeOf(found[i].pivots);
  }

  // ---------------------------------------------------------------------------
  // Within one level the overlap filter never fires
  // ---------------------------------------------------------------------------

  lemma {:induction false} IncreasingStartsLowest(p: seq<Pivot>)
    requires Increasing(p) && p != []
    ensures LowestBar(p) == p[0].bar && HighestBar(p) == p[|p| - 1].bar
    decreases |p|
  {
    if |p| > 1 {
      IncreasingStartsLowest(p[..|p| - 1]);
    }
  }

  /** Everything found starts behind bar `bar`. */
  predicate AllLater(found: seq<Outcome>, bar: int) {
    forall i :: 0 <= i < |found| ==> found[i].pivots != [] && Increasing(found[i].pivots) && bar < found[i].pivots[0].bar
  }

  lemma {:induction false} LaterRangesDoNotHold(job: Job, found: seq<Outcome>, bar: int)
    requires job.filter.existingRanges == [] && AllLater(found, bar)
    ensures forall r :: 0 <= r < |Ranges(job, found)| ==> !StrictlyInside(bar, Ranges(job, found)[r])
    decreases |found|
  {
    if found != [] {
      var front, last := found[..|found| - 1], found[|found| - 1];
      LaterRangesDoNotHold(job, front, bar);
      IncreasingStartsLowest(last.pivots);
    }
  }

  lemma NothingIsLater(bar: int)
    ensures AllLater([], bar)
  {
  }

  function Ignoring(job: Job): Job { job.(filter := job.filter.(avoidOverlap := false)) }

  lemma OverlapIsMoot(job: Job, found: seq<Outcome>, level: nat, pivots: seq<Pivot>, skip: nat)
    requires Ready(job) && job.params.pivots + skip <= |pivots| && Increasing(pivots)
    requires job.filter.existingRanges == [] && AllLater(found, pivots[|pivots| - job.params.pivots - skip].bar)
    ensures Tried(job, found, level, pivots, skip) == Tried(Ignoring(job), found, level, pivots, skip)
  {
    var w := Window(pivots, job.params.pivots, skip);
    LaterRangesDoNotHold(job, found, w[0].bar);
    SameVerdict(w, job.bars, job.params, job.allowed,
                job.filter.(existingRanges := Ranges(job, found)),
                Ignoring(job).filter.(existingRanges := Ranges(Ignoring(job), found)));
    hide TryScan, Ranges;
  }

  lemma SameVerdict(p: seq<Pivot>, bars: Bars, params: Params, allowed: Option<seq<int>>, f: WindowFilter, g: WindowFilter)
    requires params.pivots >= 5 && |p| == params.pivots
    requires g == f.(avoidOverlap := false, existingRanges := g.existingRanges) && !Overlaps(p, f)
    ensures TryScan(p, bars, params, allowed, f) == TryScan(p, bars, params, allowed, g)
  {
    hide PickBest, InspectTwo, ScanPivots, SizeOk, EntryInChannel, Alternating, CheckBarRatio;
  }

  lemma TriedIsLater(job: Job, found: seq<Outcome>, pivots: seq<Pivot>, skip: nat)
    requires Ready(job) && job.params.pivots + skip + 1 <= |pivots| && Increasing(pivots)
    requires AllLater(found, pivots[|pivots| - job.params.pivots - skip].bar)
    ensures AllLater(Tried(job, found, 0, pivots, skip), pivots[|pivots| - job.params.pivots - skip - 1].bar)
  {
    hide TryScan;
  }

  lemma {:induction false} LevelIgnoresOverlap(job: Job, pivots: seq<Pivot>, tries: nat)
    requires Ready(job) && Increasing(pivots) && job.filter.existingRanges == [] && tries <= Tries(job, pivots)
    ensures Level(job, [], 0, pivots, tries) == Level(Ignoring(job), [], 0, pivots, tries)
    ensures tries < Tries(job, pivots) ==>
              AllLater(Level(job, [], 0, pivots, tries), pivots[|pivots| - job.params.pivots - tries].bar)
    decreases tries
  {
    hide Tried, AllLater, Increasing;
    if tries > 0 {
      LevelIgnoresOverlap(job, pivots, tries - 1);
      OverlapIsMoot(job, Level(job, [], 0, pivots, tries - 1), 0, pivots, tries - 1);
      if tries < Tries(job, pivots) {
        TriedIsLater(job, Level(job, [], 0, pivots, tries - 1), pivots, tries - 1);
      }
    } else if tries < Tries(job, pivots) {
      NothingIsLater(pivots[|pivots| - job.params.pivots - tries].bar);
    }
  }

  /** On a single zigzag level with no ranges given, asking to avoid overlaps changes no outcome: each window starts
      before all windows tried earlier, so none starts inside one of them, however much they share. */
  lemma AvoidOverlapIsMootOnOneLevel(job: Job, pivots: seq<Pivot>)
    requires Ready(job) && Increasing(pivots) && job.filter.existingRanges == []
    ensures Levels(job, [pivots]) == Levels(Ignoring(job), [pivots])
  {
    hide Level;
    LevelIgnoresOverlap(job, pivots, Tries(job, pivots));
    assert [pivots][..0] == [];
  }
}
