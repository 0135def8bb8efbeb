/**
 Resumable backfill of klines: pages are fetched backwards from a cursor and every bar is upserted at once.
 The exchange is a list of bars with positive, strictly increasing open times that answers with the newest
 `limit` bars at or before the requested end.
 */
module Backfill {
  import opened Options

  datatype Bar = Bar(openTime: nat, data: int)
  type Store = map<nat, Bar>

  const PAGE: nat := 1000
  const I64_MAX: nat := 0x7FFF_FFFF_FFFF_FFFF
  const TWO_TO_32: nat := 0x1_0000_0000

  predicate History(h: seq<Bar>) {
    && (forall i :: 0 <= i < |h| ==> h[i].openTime > 0)
    && (forall i, j :: 0 <= i < j < |h| ==> h[i].openTime < h[j].openTime)
  }

  // ---------------------------------------------------------------------------
  // The exchange
  // ---------------------------------------------------------------------------

  predicate AtOrBefore(b: Bar, end: Option<nat>) { end.None? || b.openTime <= end.value }

  /** How many bars, counted from the oldest, lie at or before `end`. */
  function Visible(h: seq<Bar>, end: Option<nat>): (n: nat)
    ensures n <= |h|
  {
    if h == [] then 0
    else if AtOrBefore(h[|h| - 1], end) then |h|
    else Visible(h[..|h| - 1], end)
  }

  lemma {:induction false} VisibleIsPrefix(h: seq<Bar>, end: Option<nat>)
    requires History(h)
    ensures forall i :: 0 <= i < |h| ==> (i < Visible(h, end) <==> AtOrBefore(h[i], end))
    decreases |h|
  {
    if h != [] && !AtOrBefore(h[|h| - 1], end) {
      VisibleIsPrefix(h[..|h| - 1], end);
    }
  }

  function Min(x: nat, y: nat): (r: nat)
    ensures r <= x && r <= y && (x > 0 && y > 0 ==> r > 0)
  {
    if x <= y then x else y
  }

  /** The newest `limit` bars at or before `end`, oldest first. */
  function Fetch(h: seq<Bar>, end: Option<nat>, limit: nat): seq<Bar> {
    var n := Visible(h, end);
    h[n - Min(n, limit)..n]
  }

  /** A cursor just below a bar sees exactly the bars older than it. */
  lemma CursorBelow(h: seq<Bar>, k: nat)
    requires History(h) && k < |h|
    ensures Visible(h, Some(h[k].openTime - 1)) == k
  {
    var end := Some(h[k].openTime - 1);
    VisibleIsPrefix(h, end);
    var n := Visible(h, end);
    if n < k {
      assert AtOrBefore(h[n], end);
    }
  }

  lemma CursorAt(h: seq<Bar>, k: nat)
    requires History(h) && k < |h|
    ensures Visible(h, Some(h[k].openTime)) == k + 1
  {
    var end := Some(h[k].openTime);
    VisibleIsPrefix(h, end);
    assert k + 1 < |h| ==> h[k].openTime < h[k + 1].openTime;
  }

  // ---------------------------------------------------------------------------
  // What a run is to do
  // ---------------------------------------------------------------------------

  function Clamp(x: int, lo: int, hi: int): int { if x < lo then lo else if x > hi then hi else x }

  function Target(targetBars: int): nat { if targetBars == 0 then I64_MAX else Clamp(targetBars, 1, 50000) }

  function MaxPages(targetBars: int): nat { if targetBars == 0 then 5000 else 60 }

  /** The most bars one run can upsert. */
  function Capacity(targetBars: int): nat {
    if targetBars == 0 then 5000000 else Target(targetBars)
  }

  function Taken(h: seq<Bar>, targetBars: int, end: Option<nat>): nat {
    Min(Visible(h, end), Capacity(targetBars))
  }

  /** The store after upserting `bars` in order; a bar replaces the one with its open time. */
  function PutAll(s: Store, bars: seq<Bar>): Store {
    if bars == [] then s
    else var b := bars[|bars| - 1]; PutAll(s, bars[..|bars| - 1])[b.openTime := b]
  }

  predicate Absent(t: nat, bars: seq<Bar>) { forall i :: 0 <= i < |bars| ==> bars[i].openTime != t }

  lemma {:induction false} AbsentIsKept(s: Store, bars: seq<Bar>, t: nat)
    requires Absent(t, bars)
    ensures t in PutAll(s, bars) <==> t in s
    ensures t in s ==> PutAll(s, bars)[t] == s[t]
    decreases |bars|
  {
    if bars != [] {
      AbsentIsKept(s, bars[..|bars| - 1], t);
    }
  }

  lemma {:induction false} PresentIsStored(s: Store, bars: seq<Bar>, i: nat)
    requires History(bars) && i < |bars|
    ensures bars[i].openTime in PutAll(s, bars) && PutAll(s, bars)[bars[i].openTime] == bars[i]
    decreases |bars|
  {
    if i < |bars| - 1 {
      PresentIsStored(s, bars[..|bars| - 1], i);
    }
  }

  lemma {:induction false} PutAppend(s: Store, a: seq<Bar>, b: seq<Bar>)
    ensures PutAll(s, a + b) == PutAll(PutAll(s, a), b)
    decreases |b|
  {
    if b == [] {
      assert a + b == a;
    } else {
      assert (a + b)[..|a + b| - 1] == a + b[..|b| - 1];
      PutAppend(s, a, b[..|b| - 1]);
    }
  }

  lemma {:induction false} PutOneFirst(s: Store, b: Bar, bars: seq<Bar>)
    requires Absent(b.openTime, bars)
    ensures PutAll(s[b.openTime := b], bars) == PutAll(s, bars)[b.openTime := b]
    decreases |bars|
  {
    if bars != [] {
      var front, last := bars[..|bars| - 1], bars[|bars| - 1];
      PutOneFirst(s, b, front);
      var m: Store := PutAll(s, front);
      var first: Store, second: Store := m[b.openTime := b], m[last.openTime := last];
      assert first[last.openTime := last] == second[b.openTime := b];
    }
  }

  lemma {:induction false} PutCommutes(s: Store, a: seq<Bar>, b: seq<Bar>)
    requires forall i :: 0 <= i < |a| ==> Absent(a[i].openTime, b)
    ensures PutAll(PutAll(s, a), b) == PutAll(PutAll(s, b), a)
    decreases |a|
  {
    if a != [] {
      var front, last := a[..|a| - 1], a[|a| - 1];
      PutCommutes(s, front, b);
      PutOneFirst(PutAll(s, front), last, b);
    }
  }

  /** Storing an older page after a newer one is storing both at once. */
  lemma OlderPageJoins(s: Store, h: seq<Bar>, lo: nat, mid: nat, hi: nat)
    requires History(h) && lo <= mid <= hi <= |h|
    ensures PutAll(PutAll(s, h[mid..hi]), h[lo..mid]) == PutAll(s, h[lo..hi])
  {
    hide PutAll;
    assert h[lo..hi] == h[lo..mid] + h[mid..hi];
    PutAppend(s, h[lo..mid], h[mid..hi]);
    PutCommutes(s, h[lo..mid], h[mid..hi]);
  }

  /** The store once the newest `k` bars at or before `end` have been upserted over what was there. */
  function Stored(h: seq<Bar>, s: Store, end: Option<nat>, k: nat): Store
    requires k <= Visible(h, end)
  {
    var n := Visible(h, end);
    PutAll(s, h[n - k..n])
  }

  /** The store after a run: as many of the newest bars as the run takes. */
  function AfterRun(h: seq<Bar>, s: Store, targetBars: int, end: Option<nat>): Store {
    Stored(h, s, end, Taken(h, targetBars, end))
  }

  /** The bars in `pages` full pages. */
  function FullPages(pages: nat): nat { PAGE * pages }

  /** How many bars the first `pages` pages of a run hold. */
  function Fetched(h: seq<Bar>, targetBars: int, end: Option<nat>, pages: nat): (k: nat)
    ensures k <= Visible(h, end)
  {
    Min(Visible(h, end), Min(FullPages(pages), Capacity(targetBars)))
  }

  /** The store when a run has committed `pages` pages. */
  function AfterPages(h: seq<Bar>, s: Store, targetBars: int, end: Option<nat>, pages: nat): Store {
    Stored(h, s, end, Fetched(h, targetBars, end, pages))
  }

  function Oldest(h: seq<Bar>, targetBars: int, end: Option<nat>): Option<nat> {
    var n, t := Visible(h, end), Taken(h, targetBars, end);
    if t == 0 then None else Some(h[n - t].openTime)
  }

  function Newest(h: seq<Bar>, end: Option<nat>): Option<nat> {
    var n := Visible(h, end);
    if n == 0 then None else Some(h[n - 1].openTime)
  }

  // ---------------------------------------------------------------------------
  // Page sizes
  // ---------------------------------------------------------------------------

  /** `(target - upserted) as u32`. */
  function Need(target: nat, upserted: nat): nat
    requires upserted <= target
  {
    (target - upserted) % TWO_TO_32
  }

  /** The cast to 32 bits never makes a page smaller than what is still wanted. */
  lemma CastKeepsPage(targetBars: int, upserted: nat, pages: nat)
    requires upserted < Target(targetBars) && pages < MaxPages(targetBars) && upserted <= FullPages(pages)
    ensures Min(Need(Target(targetBars), upserted), PAGE) == Min(Capacity(targetBars) - upserted, PAGE)
  {
    if targetBars == 0 {
      assert I64_MAX - upserted == 0x7FFF_FFFF * TWO_TO_32 + (TWO_TO_32 - 1 - upserted);
    }
  }

  // ---------------------------------------------------------------------------
  // The loop
  // ---------------------------------------------------------------------------

  datatype BackfillResult = BackfillResult(
    upserted: nat, pages: nat, oldest: Option<nat>, newest: Option<nat>, reachedListing: bool)

  function Least(o: Option<nat>, x: nat): Option<nat> { if o.Some? && o.value < x then o else Some(x) }

  function Greatest(o: Option<nat>, x: nat): Option<nat> { if o.Some? && o.value > x then o else Some(x) }

  method MinMaxOpenTime(page: seq<Bar>) returns (least: nat, most: nat)
    requires page != []
    ensures LeastAndMost(page, least, most)
  {
    least, most := page[0].openTime, page[0].openTime;
    for i := 1 to |page|
      invariant forall j :: 0 <= j < i ==> least <= page[j].openTime <= most
      invariant (exists j :: 0 <= j < i && page[j].openTime == least) && (exists j :: 0 <= j < i && page[j].openTime == most)
    {
      var t := page[i].openTime;
      if t < least {
        least := t;
      }
      if t > most {
        most := t;
      }
    }
  }

  lemma PageEnds(h: seq<Bar>, end: Option<nat>, limit: nat, page: seq<Bar>, least: nat, most: nat)
    requires History(h) && page == Fetch(h, end, limit) && page != []
    requires LeastAndMost(page, least, most)
    ensures var n := Visible(h, end);
            && |page| == Min(n, limit) && page == h[n - |page|..n]
            && 0 < least == h[n - |page|].openTime && most == h[n - 1].openTime
  {
    hide Visible;
    var n := Visible(h, end);
    assert page[0] == h[n - |page|] && page[|page| - 1] == h[n - 1];
  }

  lemma PageSize(h: seq<Bar>, s: Store, n: nat, targetBars: int, pages: nat, upserted: nat, end: Option<nat>,
                 rows: Store, oldest: Option<nat>, newest: Option<nat>)
    requires Progress(h, s, n, Capacity(targetBars), pages, upserted, end, rows, oldest, newest)
    requires upserted < Target(targetBars) && pages < MaxPages(targetBars)
    ensures upserted < Capacity(targetBars) && FullPages(pages) < Capacity(targetBars)
    ensures var size := Min(Need(Target(targetBars), upserted), PAGE);
            size == Min(Capacity(targetBars) - upserted, PAGE) && 0 < size <= Target(targetBars) - upserted
    ensures |Fetch(h, end, Min(Capacity(targetBars) - upserted, PAGE))| <= Min(Capacity(targetBars) - upserted, PAGE)
  {
    hide PutAll, Visible, Cursors;
    CastKeepsPage(targetBars, upserted, pages);
    CapacityBounds(targetBars);
  }

  /** The cursors after the newest `k` of `n` bars. */
  predicate Cursors(h: seq<Bar>, n: nat, k: nat, oldest: Option<nat>, newest: Option<nat>) {
    && k <= n <= |h|
    && oldest == (if k == 0 then None else Some(h[n - k].openTime))
    && newest == (if k == 0 then None else Some(h[n - 1].openTime))
  }

  lemma CursorsMove(h: seq<Bar>, n: nat, k: nat, len: nat, oldest: Option<nat>, newest: Option<nat>)
    requires History(h) && Cursors(h, n, k, oldest, newest) && len > 0 && k + len <= n
    ensures Cursors(h, n, k + len, Least(oldest, h[n - k - len].openTime), Greatest(newest, h[n - k - 1].openTime))
  {
  }

  predicate LeastAndMost(page: seq<Bar>, least: nat, most: nat) {
    && (forall i :: 0 <= i < |page| ==> least <= page[i].openTime <= most)
    && (exists i :: 0 <= i < |page| && page[i].openTime == least)
    && (exists i :: 0 <= i < |page| && page[i].openTime == most)
  }

  /** Everything the loop knows after `pages` full pages: `n` bars lie at or before the start cursor. */
  predicate Progress(h: seq<Bar>, s: Store, n: nat, capacity: nat, pages: nat, upserted: nat, end: Option<nat>,
                     rows: Store, oldest: Option<nat>, newest: Option<nat>)
  {
    && upserted == Min(FullPages(pages), capacity) && upserted <= n <= |h|
    && Visible(h, end) == n - upserted
    && rows == PutAll(s, h[n - upserted..n])
    && Cursors(h, n, upserted, oldest, newest)
  }

  lemma Begin(h: seq<Bar>, s: Store, capacity: nat, end: Option<nat>)
    ensures Progress(h, s, Visible(h, end), capacity, 0, 0, end, s, None, None)
  {
    hide Visible;
    var n := Visible(h, end);
    assert h[n..n] == [];
  }

  lemma StorePageKeeps(h: seq<Bar>, s: Store, n: nat, upserted: nat, end: Option<nat>, limit: nat, page: seq<Bar>, rows: Store)
    requires History(h) && upserted <= n <= |h| && Visible(h, end) == n - upserted
    requires rows == PutAll(s, h[n - upserted..n]) && page == Fetch(h, end, limit)
    ensures PutAll(rows, page) == PutAll(s, h[n - upserted - |page|..n])
  {
    hide PutAll, Visible;
    OlderPageJoins(s, h, n - upserted - |page|, n - upserted, n);
  }

  lemma FullPage(h: seq<Bar>, s: Store, n: nat, capacity: nat, pages: nat, upserted: nat, end: Option<nat>,
                 rows: Store, oldest: Option<nat>, newest: Option<nat>, page: seq<Bar>, least: nat, most: nat)
    requires History(h) && Progress(h, s, n, capacity, pages, upserted, end, rows, oldest, newest)
    requires upserted < capacity && page == Fetch(h, end, Min(capacity - upserted, PAGE))
    requires |page| == Min(capacity - upserted, PAGE) && LeastAndMost(page, least, most)
    ensures least > 0
    ensures Progress(h, s, n, capacity, pages + 1, upserted + |page|, Some(least - 1),
                     PutAll(rows, page), Least(oldest, least), Greatest(newest, most))
  {
    hide PutAll, Visible, Least, Greatest, Cursors, LeastAndMost, History;
    PageEnds(h, end, Min(capacity - upserted, PAGE), page, least, most);
    CursorsMove(h, n, upserted, |page|, oldest, newest);
    StorePageKeeps(h, s, n, upserted, end, Min(capacity - upserted, PAGE), page, rows);
    CursorBelow(h, n - upserted - |page|);
  }

  lemma RunSpan(h: seq<Bar>, s: Store, targetBars: int, end: Option<nat>)
    ensures var n, k := Visible(h, end), Taken(h, targetBars, end);
            k == Min(n, Capacity(targetBars)) && AfterRun(h, s, targetBars, end) == PutAll(s, h[n - k..n])
  {
    hide PutAll;
  }

  lemma ProgressParts(h: seq<Bar>, s: Store, n: nat, capacity: nat, pages: nat, upserted: nat, end: Option<nat>,
                      rows: Store, oldest: Option<nat>, newest: Option<nat>)
    requires Progress(h, s, n, capacity, pages, upserted, end, rows, oldest, newest)
    ensures upserted <= n <= |h| && Visible(h, end) == n - upserted && rows == PutAll(s, h[n - upserted..n])
    ensures upserted == Min(FullPages(pages), capacity)
    ensures Cursors(h, n, upserted, oldest, newest)
  {
    hide PutAll, Cursors, Visible;
  }

  lemma ShortMeansAll(h: seq<Bar>, end: Option<nat>, limit: nat, page: seq<Bar>)
    requires page == Fetch(h, end, limit) && |page| < limit
    ensures |page| == Visible(h, end)
  {
  }

  lemma ShortOfCapacity(n: nat, capacity: nat, pages: nat, upserted: nat, len: nat)
    requires upserted == Min(FullPages(pages), capacity) <= n && len == n - upserted < Min(capacity - upserted, PAGE)
    ensures n < capacity && Min(n, capacity) == n == Min(n, Min(FullPages(pages + 1), capacity))
  {
  }

  lemma PagesSpan(h: seq<Bar>, s: Store, targetBars: int, end: Option<nat>, pages: nat)
    ensures var n, k := Visible(h, end), Fetched(h, targetBars, end, pages);
            && k == Min(n, Min(FullPages(pages), Capacity(targetBars)))
            && AfterPages(h, s, targetBars, end, pages) == PutAll(s, h[n - k..n])
  {
    hide PutAll;
  }

  /** A full page is committed before the next one is asked for. */
  lemma FullPageCommitted(h: seq<Bar>, s: Store, targetBars: int, start: Option<nat>, pages: nat, upserted: nat, end: Option<nat>,
                          rows: Store, oldest: Option<nat>, newest: Option<nat>)
    requires Progress(h, s, Visible(h, start), Capacity(targetBars), pages, upserted, end, rows, oldest, newest)
    ensures rows == AfterPages(h, s, targetBars, start, pages)
  {
    hide *;
    var n := Visible(h, start);
    ProgressParts(h, s, n, Capacity(targetBars), pages, upserted, end, rows, oldest, newest);
    PagesSpan(h, s, targetBars, start, pages);
    MinOfLess(n, upserted);
  }

  lemma MinOfLess(n: nat, k: nat)
    requires k <= n
    ensures Min(n, k) == k
  {
  }

  lemma CursorsAreEnds(h: seq<Bar>, targetBars: int, start: Option<nat>, oldest: Option<nat>, newest: Option<nat>)
    requires Cursors(h, Visible(h, start), Taken(h, targetBars, start), oldest, newest)
    ensures oldest == Oldest(h, targetBars, start) && newest == Newest(h, start)
  {
    CapacityBounds(targetBars);
  }

  lemma ShortPageLengths(h: seq<Bar>, s: Store, targetBars: int, start: Option<nat>, pages: nat, upserted: nat, end: Option<nat>,
                         rows: Store, oldest: Option<nat>, newest: Option<nat>, page: seq<Bar>)
    requires History(h)
    requires Progress(h, s, Visible(h, start), Capacity(targetBars), pages, upserted, end, rows, oldest, newest)
    requires upserted < Capacity(targetBars) && page == Fetch(h, end, Min(Capacity(targetBars) - upserted, PAGE))
    requires |page| < Min(Capacity(targetBars) - upserted, PAGE)
    ensures var n := Visible(h, start);
            && upserted + |page| == n < Capacity(targetBars)
            && n == Min(n, Capacity(targetBars)) == Min(n, Min(FullPages(pages + 1), Capacity(targetBars)))
  {
    hide *;
    var n, limit := Visible(h, start), Min(Capacity(targetBars) - upserted, PAGE);
    ProgressParts(h, s, n, Capacity(targetBars), pages, upserted, end, rows, oldest, newest);
    ShortMeansAll(h, end, limit, page);
    ShortOfCapacity(n, Capacity(targetBars), pages, upserted, |page|);
  }

  lemma ShortPageStored(h: seq<Bar>, s: Store, targetBars: int, start: Option<nat>, pages: nat, upserted: nat, end: Option<nat>,
                        rows: Store, oldest: Option<nat>, newest: Option<nat>, page: seq<Bar>)
    requires History(h)
    requires Progress(h, s, Visible(h, start), Capacity(targetBars), pages, upserted, end, rows, oldest, newest)
    requires upserted < Capacity(targetBars) && page == Fetch(h, end, Min(Capacity(targetBars) - upserted, PAGE))
    requires |page| < Min(Capacity(targetBars) - upserted, PAGE)
    ensures PutAll(rows, page) == PutAll(s, h[..Visible(h, start)])
  {
    hide *;
    var n := Visible(h, start);
    ShortPageLengths(h, s, targetBars, start, pages, upserted, end, rows, oldest, newest, page);
    ProgressParts(h, s, n, Capacity(targetBars), pages, upserted, end, rows, oldest, newest);
    StorePageKeeps(h, s, n, upserted, end, Min(Capacity(targetBars) - upserted, PAGE), page, rows);
    assert n - upserted - |page| == 0 && h[0..n] == h[..n];
  }

  /** A short page, or an empty one, holds all that is left. */
  lemma ShortPage(h: seq<Bar>, s: Store, targetBars: int, start: Option<nat>, pages: nat, upserted: nat, end: Option<nat>,
                  rows: Store, oldest: Option<nat>, newest: Option<nat>, page: seq<Bar>)
    requires History(h)
    requires Progress(h, s, Visible(h, start), Capacity(targetBars), pages, upserted, end, rows, oldest, newest)
    requires upserted < Capacity(targetBars) && page == Fetch(h, end, Min(Capacity(targetBars) - upserted, PAGE))
    requires |page| < Min(Capacity(targetBars) - upserted, PAGE)
    ensures Visible(h, start) < Capacity(targetBars)
    ensures upserted + |page| == Taken(h, targetBars, start) && PutAll(rows, page) == AfterRun(h, s, targetBars, start)
    ensures PutAll(rows, page) == AfterPages(h, s, targetBars, start, pages + 1)
    ensures page == [] ==> oldest == Oldest(h, targetBars, start) && newest == Newest(h, start)
  {
    hide *;
    var n := Visible(h, start);
    ShortPageLengths(h, s, targetBars, start, pages, upserted, end, rows, oldest, newest, page);
    ShortPageStored(h, s, targetBars, start, pages, upserted, end, rows, oldest, newest, page);
    RunSpan(h, s, targetBars, start);
    PagesSpan(h, s, targetBars, start, pages + 1);
    assert h[n - n..n] == h[..n];
    if page == [] {
      ProgressParts(h, s, n, Capacity(targetBars), pages, upserted, end, rows, oldest, newest);
      CursorsAreEnds(h, targetBars, start, oldest, newest);
    }
  }

  lemma ShortPageCursors(h: seq<Bar>, s: Store, targetBars: int, start: Option<nat>, pages: nat, upserted: nat, end: Option<nat>,
                         rows: Store, oldest: Option<nat>, newest: Option<nat>, page: seq<Bar>, least: nat, most: nat)
    requires History(h)
    requires Progress(h, s, Visible(h, start), Capacity(targetBars), pages, upserted, end, rows, oldest, newest)
    requires page == Fetch(h, end, Min(Capacity(targetBars) - upserted, PAGE)) && page != []
    requires upserted + |page| == Taken(h, targetBars, start) && LeastAndMost(page, least, most)
    ensures Least(oldest, least) == Oldest(h, targetBars, start) && Greatest(newest, most) == Newest(h, start)
  {
    hide PutAll, Visible, Least, Greatest, LeastAndMost, History, Capacity, Cursors, Oldest, Newest;
    var n := Visible(h, start);
    PageEnds(h, end, Min(Capacity(targetBars) - upserted, PAGE), page, least, most);
    hide Fetch;
    CursorsMove(h, n, upserted, |page|, oldest, newest);
    CursorsAreEnds(h, targetBars, start, Least(oldest, least), Greatest(newest, most));
  }

  lemma LoopEnds(h: seq<Bar>, s: Store, targetBars: int, start: Option<nat>, pages: nat, upserted: nat, end: Option<nat>,
                 rows: Store, oldest: Option<nat>, newest: Option<nat>)
    requires Progress(h, s, Visible(h, start), Capacity(targetBars), pages, upserted, end, rows, oldest, newest)
    requires upserted >= Target(targetBars) || pages >= MaxPages(targetBars)
    ensures Visible(h, start) >= Capacity(targetBars)
    ensures upserted == Taken(h, targetBars, start) && rows == AfterRun(h, s, targetBars, start)
    ensures oldest == Oldest(h, targetBars, start) && newest == Newest(h, start)
  {
    hide PutAll, Visible, Target, MaxPages, Capacity;
    CapacityBounds(targetBars);
  }

  /** How many pages it took when the last one came short. */
  lemma ShortPageCount(h: seq<Bar>, s: Store, n: nat, capacity: nat, pages: nat, upserted: nat, end: Option<nat>,
                       rows: Store, oldest: Option<nat>, newest: Option<nat>, page: seq<Bar>)
    requires Progress(h, s, n, capacity, pages, upserted, end, rows, oldest, newest) && upserted < capacity
    requires page == Fetch(h, end, Min(capacity - upserted, PAGE)) && |page| < Min(capacity - upserted, PAGE)
    ensures pages + 1 == n / 1000 + 1
  {
    hide PutAll, Visible, Cursors, Fetch;
    ShortMeansAll(h, end, Min(capacity - upserted, PAGE), page);
  }

  /** How many pages it took when the run ended full. */
  lemma FullPageCount(h: seq<Bar>, s: Store, targetBars: int, start: Option<nat>, pages: nat, upserted: nat, end: Option<nat>,
                      rows: Store, oldest: Option<nat>, newest: Option<nat>)
    requires Progress(h, s, Visible(h, start), Capacity(targetBars), pages, upserted, end, rows, oldest, newest)
    requires upserted >= Target(targetBars) || pages >= MaxPages(targetBars)
    requires pages > 0 ==> FullPages(pages - 1) < Capacity(targetBars)
    ensures pages == (Capacity(targetBars) + 999) / 1000
  {
    hide PutAll, Visible, Target, MaxPages, Capacity, Cursors;
    CapacityBounds(targetBars);
  }

  /** The target, or the page budget of an unlimited run, is what bounds a run; limited runs never exhaust their pages. */
  lemma CapacityBounds(targetBars: int)
    ensures 1 <= Capacity(targetBars) <= Target(targetBars)
    ensures targetBars == 0 ==> Capacity(targetBars) == PAGE * MaxPages(targetBars)
    ensures targetBars != 0 ==> Capacity(targetBars) == Target(targetBars) <= PAGE * (MaxPages(targetBars) - 1)
  {
  }

  // ---------------------------------------------------------------------------
  // What a run stores, and resuming
  // ---------------------------------------------------------------------------

  /** A run stores exactly the newest `Taken` bars at or before its cursor: each of them, and nothing else new. */
  lemma RunStoresNewest(h: seq<Bar>, s: Store, targetBars: int, end: Option<nat>, t: nat)
    requires History(h)
    ensures var after, n, k := AfterRun(h, s, targetBars, end), Visible(h, end), Taken(h, targetBars, end);
            && (forall i :: n - k <= i < n ==> h[i].openTime in after && after[h[i].openTime] == h[i])
            && (Absent(t, h[n - k..n]) ==> (t in after <==> t in s) && (t in s ==> after[t] == s[t]))
  {
    hide *;
    var after, n := AfterRun(h, s, targetBars, end), Visible(h, end);
    var from := n - Taken(h, targetBars, end);
    RunSpan(h, s, targetBars, end);
    forall i | from <= i < n ensures h[i].openTime in after && after[h[i].openTime] == h[i] {
      SpanIsStored(h, s, from, n, i);
    }
    if Absent(t, h[from..n]) {
      AbsentIsKept(s, h[from..n], t);
    }
  }

  lemma SpanIsStored(h: seq<Bar>, s: Store, lo: nat, hi: nat, i: nat)
    requires History(h) && lo <= i < hi <= |h|
    ensures h[i].openTime in PutAll(s, h[lo..hi]) && PutAll(s, h[lo..hi])[h[i].openTime] == h[i]
  {
    hide PutAll;
    PartOfHistory(h, lo, hi);
    PresentIsStored(s, h[lo..hi], i - lo);
    assert h[lo..hi][i - lo] == h[i];
  }

  lemma {:induction false} BarsAreDistinct(bars: seq<Bar>)
    requires History(bars)
    ensures |set b | b in bars| == |bars|
    decreases |bars|
  {
    if bars != [] {
      var front, last := bars[..|bars| - 1], bars[|bars| - 1];
      BarsAreDistinct(front);
      assert bars == front + [last];
      assert last !in front;
      assert (set b | b in bars) == (set b | b in front) + {last};
    }
  }

  /** The position behind the last visible bar is the number of visible bars. */
  lemma VisibleIsCount(h: seq<Bar>, end: Option<nat>)
    requires History(h)
    ensures Visible(h, end) == |set b | b in h && (end.None? || b.openTime <= end.value)|
  {
    var n := Visible(h, end);
    VisibleIsPrefix(h, end);
    PartOfHistory(h, 0, n);
    assert h[0..n] == h[..n];
    BarsAreDistinct(h[..n]);
    hide History, Visible;
    forall b | b in h && AtOrBefore(b, end) ensures b in h[..n] {
      var i :| 0 <= i < |h| && h[i] == b;
      assert h[..n][i] == b;
    }
    assert forall b :: b in h[..n] ==> b in h && AtOrBefore(b, end);
    assert (set b | b in h && (end.None? || b.openTime <= end.value)) == set b | b in h[..n];
  }

  /** `after` holds the bars `lo..hi` of the history and is otherwise `before`. */
  ghost predicate HoldsSpan(h: seq<Bar>, lo: nat, hi: nat, before: Store, after: Store)
    requires lo <= hi <= |h|
  {
    && (forall i :: lo <= i < hi ==> h[i].openTime in after && after[h[i].openTime] == h[i])
    && (forall t: nat :: Absent(t, h[lo..hi]) ==> (t in after <==> t in before) && (t in before ==> after[t] == before[t]))
  }

  lemma RunEnds(h: seq<Bar>, targetBars: int, end: Option<nat>)
    ensures var n, c := Visible(h, end), Capacity(targetBars);
            var k := if n < c then n else c;
            && Taken(h, targetBars, end) == k <= n <= |h|
            && Oldest(h, targetBars, end) == (if k == 0 then None else Some(h[n - k].openTime))
            && Newest(h, end) == (if k == 0 then None else Some(h[n - 1].openTime))
  {
    hide Visible;
    CapacityBounds(targetBars);
  }

  /** A run takes at most `targetBars` bars, held between 1 and 50000, or five million when `targetBars` is 0. */
  lemma CapacityInNumbers(targetBars: int)
    ensures Capacity(targetBars) == if targetBars == 0 then 5000000 else if targetBars < 1 then 1
                                    else if targetBars > 50000 then 50000 else targetBars
  {
  }

  /** A run stores as many of the newest bars at or before its cursor as it takes, and nothing else. */
  lemma RunHoldsTaken(h: seq<Bar>, s: Store, targetBars: int, end: Option<nat>)
    requires History(h)
    ensures var n := Visible(h, end);
            HoldsSpan(h, n - Taken(h, targetBars, end), n, s, AfterRun(h, s, targetBars, end))
  {
    hide AfterRun, Visible, Absent, Capacity, History;
    var n, after := Visible(h, end), AfterRun(h, s, targetBars, end);
    RunStoresNewest(h, s, targetBars, end, 0);
    forall t: nat | Absent(t, h[n - Taken(h, targetBars, end)..n])
      ensures (t in after <==> t in s) && (t in s ==> after[t] == s[t])
    {
      RunStoresNewest(h, s, targetBars, end, t);
    }
  }

  /** When a run reports the listing date, every bar at or before its cursor has been stored. */
  lemma ListingMeansAll(h: seq<Bar>, s: Store, targetBars: int, end: Option<nat>)
    requires History(h) && Visible(h, end) < Capacity(targetBars)
    ensures forall i :: 0 <= i < |h| && AtOrBefore(h[i], end) ==>
              h[i].openTime in AfterRun(h, s, targetBars, end) && AfterRun(h, s, targetBars, end)[h[i].openTime] == h[i]
  {
    hide PutAll, Capacity, AfterRun;
    VisibleIsPrefix(h, end);
    RunStoresNewest(h, s, targetBars, end, 0);
  }

  lemma StoringTwice(s: Store, bars: seq<Bar>, again: Bar)
    requires History(bars) && bars != [] && again == bars[0]
    ensures PutAll(PutAll(s, bars), [again]) == PutAll(s, bars)
  {
    PresentIsStored(s, bars, 0);
    hide PutAll;
    OneBar(PutAll(s, bars), again);
  }

  lemma OneBar(s: Store, b: Bar)
    ensures PutAll(s, [b]) == s[b.openTime := b]
  {
    assert [b][..0] == [];
  }

  lemma OlderDiffers(h: seq<Bar>, lo: nat, mid: nat)
    requires History(h) && lo <= mid < |h|
    ensures forall i :: 0 <= i < |h[lo..mid]| ==> Absent(h[lo..mid][i].openTime, [h[mid]])
  {
  }

  lemma PartOfHistory(h: seq<Bar>, lo: nat, hi: nat)
    requires History(h) && lo <= hi <= |h|
    ensures History(h[lo..hi])
  {
  }

  /** Storing a span and then an older one that ends with the first bar of it. */
  lemma OverlapByOne(s: Store, h: seq<Bar>, lo: nat, mid: nat, hi: nat)
    requires History(h) && lo <= mid < hi <= |h|
    ensures PutAll(PutAll(s, h[mid..hi]), h[lo..mid + 1]) == PutAll(s, h[lo..hi])
  {
    hide PutAll;
    var once := PutAll(s, h[mid..hi]);
    PartOfHistory(h, mid, hi);
    assert h[lo..mid + 1] == h[lo..mid] + [h[mid]];
    PutAppend(once, h[lo..mid], [h[mid]]);
    OlderDiffers(h, lo, mid);
    hide History, Absent;
    PutCommutes(once, h[lo..mid], [h[mid]]);
    assert h[mid..hi][0] == h[mid];
    StoringTwice(s, h[mid..hi], h[mid]);
    OlderPageJoins(s, h, lo, mid, hi);
  }

  /** Resuming from the oldest stored bar fetches that bar again and then the older ones, wherever the runs before
      it stopped, even when the exchange has added newer bars in between. */
  lemma ResumeFromOldestStored(h: seq<Bar>, newer: seq<Bar>, s: Store, k: nat, b: int, end: Option<nat>)
    requires History(h + newer) && 0 < k <= Visible(h, end)
    ensures var n := Visible(h, end);
            var m, resume := Min(n, k - 1 + Capacity(b)), Some(h[n - k].openTime);
            && AfterRun(h + newer, Stored(h, s, end, k), b, resume) == Stored(h, s, end, m)
            && Oldest(h + newer, b, resume) == Some(h[n - m].openTime)
  {
    hide *;
    var n := Visible(h, end);
    var m, mid := Min(n, k - 1 + Capacity(b)), n - k;
    CapacityBounds(b);
    HistoryPart(h, newer);
    ResumeLengths(n, k, Capacity(b));
    StoredIs(h, s, end, k);
    StoredIs(h, s, end, m);
    FromBar(h, newer, Stored(h, s, end, k), b, mid);
    var from := mid + 1 - Min(mid + 1, Capacity(b));
    assert from == n - m;
    OverlapByOne(s, h, from, mid, n);
  }

  lemma StoredIs(h: seq<Bar>, s: Store, end: Option<nat>, k: nat)
    requires k <= Visible(h, end)
    ensures Stored(h, s, end, k) == PutAll(s, h[Visible(h, end) - k..Visible(h, end)])
  {
    hide PutAll, Visible;
  }

  lemma ResumeLengths(n: nat, k: nat, capacity: nat)
    requires 0 < k <= n && capacity > 0
    ensures var m, mid := Min(n, k - 1 + capacity), n - k; mid + 1 - Min(mid + 1, capacity) == n - m && k <= m
  {
  }

  lemma HistoryPart(h: seq<Bar>, newer: seq<Bar>)
    requires History(h + newer)
    ensures History(h)
  {
    assert forall i :: 0 <= i < |h| ==> (h + newer)[i] == h[i];
  }

  /** A run from the open time of bar `k` takes that bar and the older ones. */
  lemma FromBar(h: seq<Bar>, newer: seq<Bar>, s: Store, b: int, k: nat)
    requires History(h + newer) && k < |h|
    ensures var end, from := Some(h[k].openTime), k + 1 - Min(k + 1, Capacity(b));
            && AfterRun(h + newer, s, b, end) == PutAll(s, h[from..k + 1])
            && from <= k && Oldest(h + newer, b, end) == Some(h[from].openTime)
  {
    hide *;
    var end, from := Some(h[k].openTime), k + 1 - Min(k + 1, Capacity(b));
    CapacityBounds(b);
    assert (h + newer)[k] == h[k] && (h + newer)[from] == h[from];
    CursorAt(h + newer, k);
    RunSpan(h + newer, s, b, end);
    OldestOfRun(h + newer, b, end);
    assert (h + newer)[from..k + 1] == h[from..k + 1];
  }

  lemma OldestOfRun(h: seq<Bar>, targetBars: int, end: Option<nat>)
    requires Visible(h, end) > 0
    ensures var n, k := Visible(h, end), Min(Visible(h, end), Capacity(targetBars));
            0 < k <= n && Oldest(h, targetBars, end) == Some(h[n - k].openTime)
  {
    hide Visible;
    CapacityBounds(targetBars);
  }

  /** A run interrupted after any number of pages and resumed reaches the store of one uninterrupted run, of any
      targets, limited or not, that takes as many bars as the two do together. */
  lemma ResumeAfterPages(h: seq<Bar>, newer: seq<Bar>, s: Store, a: int, pages: nat, b: int, t: int, end: Option<nat>)
    requires History(h + newer) && pages > 0 && Visible(h, end) > 0
    requires Taken(h, t, end) == Min(Visible(h, end), Fetched(h, a, end, pages) - 1 + Capacity(b))
    ensures var n, k := Visible(h, end), Fetched(h, a, end, pages);
            && k > 0
            && var resume := Some(h[n - k].openTime);
               && AfterRun(h + newer, AfterPages(h, s, a, end, pages), b, resume) == AfterRun(h, s, t, end)
               && Oldest(h + newer, b, resume) == Oldest(h, t, end)
  {
    CapacityBounds(a);
    hide PutAll, Visible, Capacity, History, Stored;
    ResumeFromOldestStored(h, newer, s, Fetched(h, a, end, pages), b, end);
    OldestOfRun(h, t, end);
  }

  /** A full backfill may be interrupted after any page: resuming it reaches the store of the uninterrupted one. */
  lemma FullBackfillResumes(h: seq<Bar>, newer: seq<Bar>, s: Store, pages: nat, end: Option<nat>)
    requires History(h + newer) && pages > 0 && 0 < Visible(h, end) <= Capacity(0)
    ensures var n, k := Visible(h, end), Fetched(h, 0, end, pages);
            && k > 0
            && AfterRun(h + newer, AfterPages(h, s, 0, end, pages), 0, Some(h[n - k].openTime)) == AfterRun(h, s, 0, end)
  {
    hide AfterRun, AfterPages, Visible, History;
    ResumeAfterPages(h, newer, s, 0, pages, 0, 0, end);
  }

  /** A page is written oldest bar first.  After an interruption between its bars, resuming from the oldest stored
      one starts below the rest of the page: a bar of that rest is in the table exactly if it was there before. */
  lemma MidPageInterruptionLeavesGap(h: seq<Bar>, s: Store, lo: nat, cut: nat, hi: nat, b: int, end: Option<nat>, j: nat)
    requires History(h) && lo < cut <= j < hi <= Visible(h, end)
    ensures var n := Visible(h, end);
            var partial := PutAll(PutAll(s, h[hi..n]), h[lo..cut]);
            h[j].openTime in AfterRun(h, partial, b, Some(h[lo].openTime)) <==> h[j].openTime in s
  {
    hide PutAll, Visible, Capacity, AfterRun;
    var n, t := Visible(h, end), h[j].openTime;
    assert h + [] == h;
    FromBar(h, [], PutAll(PutAll(s, h[hi..n]), h[lo..cut]), b, lo);
    var from := lo + 1 - Min(lo + 1, Capacity(b));
    AbsentFrom(h, hi, n, j);
    AbsentFrom(h, lo, cut, j);
    AbsentFrom(h, from, lo + 1, j);
    AbsentIsKept(s, h[hi..n], t);
    AbsentIsKept(PutAll(s, h[hi..n]), h[lo..cut], t);
    AbsentIsKept(PutAll(PutAll(s, h[hi..n]), h[lo..cut]), h[from..lo + 1], t);
  }

  lemma AbsentFrom(h: seq<Bar>, lo: nat, hi: nat, j: nat)
    requires History(h) && lo <= hi <= |h| && j < |h| && (j < lo || hi <= j)
    ensures Absent(h[j].openTime, h[lo..hi])
  {
    forall i | 0 <= i < hi - lo ensures h[lo..hi][i].openTime != h[j].openTime {
      assert h[lo..hi][i] == h[lo + i];
    }
  }

  /** Finished runs of `a` and then `b` bars leave the store, and the cursor, of one run of `a + b - 1` bars. */
  lemma ResumeIsOneLongerRun(h: seq<Bar>, newer: seq<Bar>, s: Store, a: int, b: int, end: Option<nat>)
    requires History(h + newer)
    requires 1 <= a <= 50000 && 1 <= b <= 50000 && a + b - 1 <= 50000
    requires Visible(h, end) > 0
    ensures var resume := Oldest(h, a, end);
            && resume.Some?
            && AfterRun(h + newer, AfterRun(h, s, a, end), b, resume) == AfterRun(h, s, a + b - 1, end)
            && Oldest(h + newer, b, resume) == Oldest(h, a + b - 1, end)
  {
    hide PutAll, Visible, History, Stored;
    ResumeFromOldestStored(h, newer, s, Taken(h, a, end), b, end);
    OldestOfRun(h, a, end);
    OldestOfRun(h, a + b - 1, end);
  }

  class MarketBars {
    var rows: Store
    ghost var commits: seq<Store> // the table after each page

    method Upsert(b: Bar)
      modifies this`rows
      ensures rows == old(rows)[b.openTime := b]
    {
      rows := rows[b.openTime := b];
    }

    /** The inner loop: upserts the page bar by bar, oldest first, until the target is reached. */
    method StorePage(page: seq<Bar>, before: nat, target: nat) returns (upserted: nat)
      requires before < target
      modifies this`rows
      ensures upserted == before + if |page| <= target - before then |page| else target - before
      ensures rows == PutAll(old(rows), page[..upserted - before])
    {
      upserted := before;
      for i := 0 to |page|
        invariant i < target - before && upserted == before + i
        invariant rows == PutAll(old(rows), page[..i])
      {
        Upsert(page[i]);
        assert page[..i + 1][..i] == page[..i];
        upserted := upserted + 1;
        if upserted >= target {
          return;
        }
      }
    }

    /** `backfill_binance_public_klines` against a well-behaved exchange. */
    method Run(h: seq<Bar>, targetBars: int, resumeEnd: Option<nat>) returns (r: BackfillResult)
      requires History(h)
      modifies this
      ensures var seen := |set b | b in h && (resumeEnd.None? || b.openTime <= resumeEnd.value)|;
              var most := if targetBars == 0 then 5000000 else if targetBars < 1 then 1
                          else if targetBars > 50000 then 50000 else targetBars;
              && r.upserted == (if seen < most then seen else most) <= seen <= |h|
              && HoldsSpan(h, seen - r.upserted, seen, old(rows), rows)
              && (r.reachedListing <==> seen < most)
              && r.pages == (if seen < most then seen / 1000 + 1 else (most + 999) / 1000)
              && r.oldest == (if r.upserted == 0 then None else Some(h[seen - r.upserted].openTime))
              && r.newest == (if r.upserted == 0 then None else Some(h[seen - 1].openTime))
      ensures rows == AfterRun(h, old(rows), targetBars, resumeEnd)
      ensures r.upserted == Taken(h, targetBars, resumeEnd)
      ensures r.oldest == Oldest(h, targetBars, resumeEnd) && r.newest == Newest(h, resumeEnd)
      ensures r.reachedListing <==> Visible(h, resumeEnd) < Capacity(targetBars)
      ensures r.pages <= MaxPages(targetBars)
      ensures |commits| == |old(commits)| + r.pages && commits[..|old(commits)|] == old(commits)
      ensures forall p :: 0 < p <= r.pages ==>
        commits[|old(commits)| + p - 1] == AfterPages(h, old(rows), targetBars, resumeEnd, p)
    {
      hide *;
      var target, maxPages := Target(targetBars), MaxPages(targetBars);
      var upserted, pages, end := 0, 0, resumeEnd;
      var oldest: Option<nat>, newest: Option<nat> := None, None;
      VisibleIsCount(h, end);
      CapacityInNumbers(targetBars);
      RunEnds(h, targetBars, end);
      RunHoldsTaken(h, rows, targetBars, end);
      Begin(h, rows, Capacity(targetBars), end);
      while upserted < target && pages < maxPages
        invariant Progress(h, old(rows), Visible(h, resumeEnd), Capacity(targetBars), pages, upserted, end, rows, oldest, newest)
        invariant pages <= maxPages && (pages > 0 ==> FullPages(pages - 1) < Capacity(targetBars))
        invariant |commits| == |old(commits)| + pages && commits[..|old(commits)|] == old(commits)
        invariant forall p :: 0 < p <= pages ==>
          commits[|old(commits)| + p - 1] == AfterPages(h, old(rows), targetBars, resumeEnd, p)
      {
        ghost var n, pages0, end0 := Visible(h, resumeEnd), pages, end;
        PageSize(h, old(rows), n, targetBars, pages, upserted, end, rows, oldest, newest);
        pages := pages + 1;
        var batchLim := Min(Need(target, upserted), PAGE);
        var page := Fetch(h, end, batchLim);
        if |page| < batchLim {
          ShortPageCount(h, old(rows), n, Capacity(targetBars), pages0, upserted, end, rows, oldest, newest, page);
        }
        if page == [] {
          ShortPage(h, old(rows), targetBars, resumeEnd, pages0, upserted, end, rows, oldest, newest, page);
          NothingStored(rows, page);
          commits := commits + [rows];
          return BackfillResult(upserted, pages, oldest, newest, true);
        }
        var batchOldest, batchNewest := MinMaxOpenTime(page);
        if |page| == batchLim {
          FullPage(h, old(rows), n, Capacity(targetBars), pages0, upserted, end, rows, oldest, newest, page, batchOldest, batchNewest);
          FullPageCommitted(h, old(rows), targetBars, resumeEnd, pages, upserted + |page|, Some(batchOldest - 1), PutAll(rows, page),
                            Least(oldest, batchOldest), Greatest(newest, batchNewest));
        } else {
          ShortPage(h, old(rows), targetBars, resumeEnd, pages0, upserted, end, rows, oldest, newest, page);
          ShortPageCursors(h, old(rows), targetBars, resumeEnd, pages0, upserted, end, rows, oldest, newest, page, batchOldest, batchNewest);
        }
        oldest, newest := Least(oldest, batchOldest), Greatest(newest, batchNewest);
        upserted := StorePage(page, upserted, target);
        assert page[..|page|] == page;
        commits := commits + [rows];
        if |page| < batchLim {
          return BackfillResult(upserted, pages, oldest, newest, true);
        }
        end := Some(if batchOldest >= 1 then batchOldest - 1 else 0);
      }
      FullPageCount(h, old(rows), targetBars, resumeEnd, pages, upserted, end, rows, oldest, newest);
      LoopEnds(h, old(rows), targetBars, resumeEnd, pages, upserted, end, rows, oldest, newest);
      return BackfillResult(upserted, pages, oldest, newest, false);
    }
  }

  lemma NothingStored(s: Store, bars: seq<Bar>)
    requires bars == []
    ensures PutAll(s, bars) == s
  {
  }
}
