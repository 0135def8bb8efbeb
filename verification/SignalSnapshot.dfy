/**
 The signal snapshot of one engine symbol: each tick computes a dashboard from the bars, compares it with the
 previously stored payload, freezes the entry price and emits edge events.  Prices are reals and a close that
 is not finite is missing; reading the previous payload, saving the new one and inserting an event can each fail.
 */
module SignalSnapshot {
  import opened Options
  import opened Reals

  datatype Side = Long | Short | Notr
  datatype Policy = Both | LongOnly | ShortOnly
  datatype Dashboard = Dashboard(durum: Side, giris: Option<real>, stop: Option<real>, takeProfit: Option<real>)

  // ---------------------------------------------------------------------------
  // The dashboard's levels
  // ---------------------------------------------------------------------------

  /** What the range analysis hands to the dashboard. */
  datatype Range = Range(setupSide: Side, longSweep: bool, shortSweep: bool, high: Option<real>, low: Option<real>)

  function Buffer(tr: Range): real {
    if tr.high.Some? && tr.low.Some? then Abs(tr.high.value - tr.low.value) * 0.008 else 0.0
  }

  predicate LevelsConsistent(side: Side, entry: real, sl: real, tp: real) {
    match side
    case Long => sl < entry < tp
    case Short => tp < entry < sl
    case Notr => false
  }

  predicate Complete(d: Dashboard) { d.giris.Some? && d.stop.Some? && d.takeProfit.Some? }

  /** LONG or SHORT comes with all three levels, in the order of the side. */
  predicate Sound(d: Dashboard) {
    d.durum != Notr ==> Complete(d) && LevelsConsistent(d.durum, d.giris.value, d.stop.value, d.takeProfit.value)
  }

  predicate Allows(policy: Policy, side: Side) {
    match policy
    case Both => true
    case LongOnly => side != Short
    case ShortOnly => side != Long
  }

  /** The setup can be traded: its sweep fired, both band edges are known and the close lies strictly between
      the stop behind one edge and the target at the other. */
  predicate Tradable(lastClose: Option<real>, tr: Range, side: Side) {
    && lastClose.Some? && tr.high.Some? && tr.low.Some?
    && match side
       case Long => tr.longSweep && tr.low.value - Buffer(tr) < lastClose.value < tr.high.value
       case Short => tr.shortSweep && tr.low.value < lastClose.value < tr.high.value + Buffer(tr)
       case Notr => false
  }

  /** The level and `durum` decisions of `compute_signal_dashboard_v1_with_policy`. */
  method ComputeDashboard(lastClose: Option<real>, tr: Range, policy: Policy) returns (d: Dashboard)
    ensures Sound(d)
    ensures d.durum == if Allows(policy, tr.setupSide) && Tradable(lastClose, tr, tr.setupSide) then tr.setupSide else Notr
    ensures d.durum != Notr ==> d.giris == lastClose
    ensures d.durum == Long ==> d.stop.value == tr.low.value - Buffer(tr) && d.takeProfit == tr.high
    ensures d.durum == Short ==> d.stop.value == tr.high.value + Buffer(tr) && d.takeProfit == tr.low
    ensures d.giris.Some? ==> d.giris == lastClose
    ensures d.durum == Long ==> d.stop.value == tr.low.value - 0.008 * Abs(tr.high.value - tr.low.value) <= tr.low.value
    ensures d.durum == Short ==> d.stop.value == tr.high.value + 0.008 * Abs(tr.high.value - tr.low.value) >= tr.high.value
  {
    var giris: Option<real>, stop: Option<real>, takeProfit: Option<real> := None, None, None;
    if tr.setupSide == Long && tr.longSweep {
      giris, takeProfit := lastClose, tr.high;
      stop := if tr.low.Some? then Some(tr.low.value - Buffer(tr)) else None;
    } else if tr.setupSide == Short && tr.shortSweep {
      giris, takeProfit := lastClose, tr.low;
      stop := if tr.high.Some? then Some(tr.high.value + Buffer(tr)) else None;
    }
    if giris.Some? && stop.Some? && takeProfit.Some? {
      if !LevelsConsistent(tr.setupSide, giris.value, stop.value, takeProfit.value) {
        giris, stop, takeProfit := None, None, None;
      }
    }
    var durum := tr.setupSide;
    if (policy == LongOnly && durum == Short) || (policy == ShortOnly && durum == Long) {
      durum := Notr;
    }
    if policy == LongOnly && tr.setupSide == Short && tr.shortSweep {
      giris, stop, takeProfit := None, None, None;
    }
    if policy == ShortOnly && tr.setupSide == Long && tr.longSweep {
      giris, stop, takeProfit := None, None, None;
    }
    var levelsReady := giris.Some? && stop.Some? && takeProfit.Some?;
    if !levelsReady && (durum == Long || durum == Short) {
      durum := Notr;
    }
    d := Dashboard(durum, giris, stop, takeProfit);
  }

  // ---------------------------------------------------------------------------
  // Payload and events
  // ---------------------------------------------------------------------------

  /** The stored `signal_dashboard` payload. */
  datatype Payload =
    | Insufficient
    | Board(durum: Side, giris: Option<real>, stop: Option<real>, takeProfit: Option<real>, setupEntry: Option<real>)

  datatype Kind = LongEntry | LongExit | ShortEntry | ShortExit
  datatype Event = Event(kind: Kind, bar: int, price: real)
  type Events = map<(Kind, int), real>

  function Or<T>(x: Option<T>, y: Option<T>): Option<T> { if x.Some? then x else y }

  /** `durum_from_signal_payload`. */
  function SideOf(p: Option<Payload>): Option<Side> {
    if p.Some? && p.value.Board? then Some(p.value.durum) else None
  }

  /** `durum_transition_event_kinds`. */
  function Kinds(prev: Option<Side>, now: Side): seq<Kind> {
    match (prev, now)
    case (None, Long) => [LongEntry]
    case (None, Short) => [ShortEntry]
    case (None, Notr) => []
    case (Some(p), n) =>
      if p == n then []
      else match (p, n)
        case (Notr, Long) => [LongEntry]
        case (Notr, Short) => [ShortEntry]
        case (Long, Notr) => [LongExit]
        case (Short, Notr) => [ShortExit]
        case (Long, Short) => [LongExit, ShortEntry]
        case (Short, Long) => [ShortExit, LongEntry]
        case _ => []
  }

  function ReferencePrice(d: Dashboard, lastClose: Option<real>): Option<real> { Or(d.giris, lastClose) }

  /** The payload written for `d` when `prev` was read before. */
  function Attached(d: Dashboard, prev: Option<Payload>, lastClose: Option<real>): Payload {
    if d.durum == Notr || !Complete(d) then Board(d.durum, d.giris, d.stop, d.takeProfit, None)
    else
      var frozen :=
        if SideOf(prev) == Some(d.durum) then Or(Or(prev.value.setupEntry, prev.value.giris), d.giris) else d.giris;
      Board(d.durum, frozen, d.stop, d.takeProfit, frozen)
  }

  function EventsFor(kinds: seq<Kind>, bar: int, price: real): seq<Event> {
    if kinds == [] then [] else EventsFor(kinds[..|kinds| - 1], bar, price) + [Event(kinds[|kinds| - 1], bar, price)]
  }

  /** The events a tick emits. */
  function Edges(prev: Option<Side>, d: Dashboard, bar: int, lastClose: Option<real>): seq<Event> {
    match ReferencePrice(d, lastClose)
    case None => []
    case Some(px) => EventsFor(Kinds(prev, d.durum), bar, px)
  }

  /** `ON CONFLICT DO NOTHING`: the first event of a kind and bar stays. */
  function Insert(recorded: Events, e: Event, lost: set<Kind>): Events {
    if e.kind in lost || (e.kind, e.bar) in recorded then recorded else recorded[(e.kind, e.bar) := e.price]
  }

  function InsertAll(recorded: Events, es: seq<Event>, lost: set<Kind>): Events {
    if es == [] then recorded else Insert(InsertAll(recorded, es[..|es| - 1], lost), es[|es| - 1], lost)
  }

  // ---------------------------------------------------------------------------
  // Ticks
  // ---------------------------------------------------------------------------

  /** Payload in the database, every event the loop tried to insert, and the event table. */
  datatype State = State(payload: Option<Payload>, emitted: seq<Event>, recorded: Events)

  const INIT := State(None, [], map[])

  datatype Tick =
    | BarsUnreadable
    | TooFewBars(saved: bool)
    | Computed(dash: Dashboard, lastClose: Option<real>, bar: int, prevRead: bool, saved: bool, lost: set<Kind>)

  function Prev(s: State, t: Tick): Option<Payload>
    requires t.Computed?
  {
    if t.prevRead then s.payload else None
  }

  function Emits(s: State, t: Tick): seq<Event> {
    if t.Computed? && t.saved then Edges(SideOf(Prev(s, t)), t.dash, t.bar, t.lastClose) else []
  }

  function Next(s: State, t: Tick): State {
    match t
    case BarsUnreadable => s
    case TooFewBars(saved) => if saved then s.(payload := Some(Insufficient)) else s
    case Computed(d, lastClose, bar, _, saved, lost) =>
      if !saved then s
      else State(Some(Attached(d, Prev(s, t), lastClose)), s.emitted + Emits(s, t), InsertAll(s.recorded, Emits(s, t), lost))
  }

  predicate SoundTick(t: Tick) { t.Computed? ==> Sound(t.dash) }

  function After(ticks: seq<Tick>): State {
    if ticks == [] then INIT else Next(After(ticks[..|ticks| - 1]), ticks[|ticks| - 1])
  }

  lemma AfterOneMore(ticks: seq<Tick>, t: Tick)
    ensures After(ticks + [t]) == Next(After(ticks), t)
  {
    hide Next;
    assert (ticks + [t])[..|ticks|] == ticks;
  }

  // ---------------------------------------------------------------------------
  // The frozen price
  // ---------------------------------------------------------------------------

  predicate IsEntry(k: Kind) { k == LongEntry || k == ShortEntry }

  function EntryKind(side: Side): Kind { if side == Short then ShortEntry else LongEntry }

  function LastEntry(es: seq<Event>): Option<Event> {
    if es == [] then None
    else if IsEntry(es[|es| - 1].kind) then Some(es[|es| - 1])
    else LastEntry(es[..|es| - 1])
  }

  /** An active payload carries the price of the latest emitted entry event, which is of its side; a neutral one none. */
  predicate FrozenAtEntry(s: State) {
    s.payload.Some? && s.payload.value.Board? ==>
      var p := s.payload.value;
      if p.durum == Notr then p.setupEntry == None
      else
        && LastEntry(s.emitted).Some?
        && LastEntry(s.emitted).value.kind == EntryKind(p.durum)
        && p.setupEntry == Some(LastEntry(s.emitted).value.price)
  }

  lemma LastEntryOfAppend(es: seq<Event>, e: Event)
    ensures LastEntry(es + [e]) == if IsEntry(e.kind) then Some(e) else LastEntry(es)
  {
    assert (es + [e])[..|es|] == es;
  }

  /** What a computed tick does to the latest entry: a new one exactly when the side becomes active. */
  lemma EdgesEndInEntry(es: seq<Event>, prev: Option<Side>, d: Dashboard, bar: int, lastClose: Option<real>)
    requires Sound(d)
    ensures var after := es + Edges(prev, d, bar, lastClose);
            if d.durum != Notr && prev != Some(d.durum)
            then LastEntry(after) == Some(Event(EntryKind(d.durum), bar, d.giris.value))
            else LastEntry(after) == LastEntry(es)
  {
    var px := ReferencePrice(d, lastClose);
    if px.Some? {
      var kinds := Kinds(prev, d.durum);
      if |kinds| == 1 {
        OneEdge(kinds, bar, px.value);
        LastEntryOfAppend(es, Event(kinds[0], bar, px.value));
      } else if |kinds| == 2 {
        TwoEdges(kinds, bar, px.value);
        var exit, entry := Event(kinds[0], bar, px.value), Event(kinds[1], bar, px.value);
        assert es + [exit, entry] == (es + [exit]) + [entry];
        LastEntryOfAppend(es + [exit], entry);
      } else {
        assert es + [] == es;
      }
    } else {
      assert es + [] == es;
    }
  }

  lemma OneEdge(kinds: seq<Kind>, bar: int, px: real)
    requires |kinds| == 1
    ensures EventsFor(kinds, bar, px) == [Event(kinds[0], bar, px)]
  {
    assert EventsFor(kinds[..0], bar, px) == [];
  }

  lemma TwoEdges(kinds: seq<Kind>, bar: int, px: real)
    requires |kinds| == 2
    ensures EventsFor(kinds, bar, px) == [Event(kinds[0], bar, px), Event(kinds[1], bar, px)]
  {
    OneEdge(kinds[..1], bar, px);
  }

  lemma TickKeepsFrozen(s: State, t: Tick)
    requires FrozenAtEntry(s) && SoundTick(t)
    ensures FrozenAtEntry(Next(s, t))
  {
    if t.Computed? && t.saved {
      EdgesEndInEntry(s.emitted, SideOf(Prev(s, t)), t.dash, t.bar, t.lastClose);
    }
  }

  /** On every run of ticks, whatever is missing or fails on the way, the stored entry price is that of the latest
      entry event of the active side. */
  lemma {:induction false} EntryPriceIsFrozen(ticks: seq<Tick>)
    requires forall t :: t in ticks ==> SoundTick(t)
    ensures FrozenAtEntry(After(ticks))
    decreases |ticks|
  {
    if ticks != [] {
      EntryPriceIsFrozen(ticks[..|ticks| - 1]);
      TickKeepsFrozen(After(ticks[..|ticks| - 1]), ticks[|ticks| - 1]);
    }
  }

  /** The soundness of the dashboard is needed: LONG without levels emits an entry and stores no price. */
  lemma UnsoundDashboardLosesPrice()
    ensures var bare := Computed(Dashboard(Long, None, None, None), Some(100.0), 1, true, true, {});
            !FrozenAtEntry(Next(INIT, bare)) && Emits(INIT, bare) == [Event(LongEntry, 1, 100.0)]
  {
    OneEdge([LongEntry], 1, 100.0);
  }

  // ---------------------------------------------------------------------------
  // The event table
  // ---------------------------------------------------------------------------

  /** The table holds the stored entry price for the latest entry. */
  predicate RecordedAgrees(s: State) {
    s.payload.Some? && s.payload.value.Board? && s.payload.value.durum != Notr ==>
      && LastEntry(s.emitted).Some?
      && var e := LastEntry(s.emitted).value;
         (e.kind, e.bar) in s.recorded && s.payload.value.setupEntry == Some(s.recorded[(e.kind, e.bar)])
  }

  /** The tick emits an entry event. */
  predicate Enters(s: State, t: Tick) {
    t.Computed? && t.saved && t.dash.durum != Notr && SideOf(Prev(s, t)) != Some(t.dash.durum)
  }

  lemma {:induction false} InsertingKeeps(recorded: Events, es: seq<Event>, lost: set<Kind>, k: (Kind, int))
    ensures k in recorded ==> k in InsertAll(recorded, es, lost) && InsertAll(recorded, es, lost)[k] == recorded[k]
    decreases |es|
  {
    if es != [] {
      InsertingKeeps(recorded, es[..|es| - 1], lost, k);
    }
  }

  lemma InsertOne(recorded: Events, e: Event, lost: set<Kind>)
    ensures InsertAll(recorded, [e], lost) == Insert(recorded, e, lost)
  {
    assert [e][..0] == [];
  }

  lemma InsertOneMore(recorded: Events, es: seq<Event>, e: Event, lost: set<Kind>)
    ensures InsertAll(recorded, es + [e], lost) == Insert(InsertAll(recorded, es, lost), e, lost)
  {
    assert (es + [e])[..|es|] == es;
  }

  /** Inserting the edges of an entry stores the entry unless it is lost or its kind and bar are taken. */
  lemma InsertedEdges(recorded: Events, prev: Option<Side>, d: Dashboard, bar: int, lastClose: Option<real>, lost: set<Kind>)
    requires Sound(d) && d.durum != Notr && prev != Some(d.durum)
    ensures var k, after := (EntryKind(d.durum), bar), InsertAll(recorded, Edges(prev, d, bar, lastClose), lost);
            && (k in recorded ==> k in after && after[k] == recorded[k])
            && (k !in recorded ==> (k in after <==> k.0 !in lost) && (k in after ==> after[k] == d.giris.value))
  {
    hide InsertAll, EventsFor;
    var px, kinds := d.giris.value, Kinds(prev, d.durum);
    var entry := Event(EntryKind(d.durum), bar, px);
    if |kinds| == 1 {
      OneEdge(kinds, bar, px);
      InsertOne(recorded, entry, lost);
    } else {
      TwoEdges(kinds, bar, px);
      var exit := Event(kinds[0], bar, px);
      assert [exit, entry] == [exit] + [entry];
      InsertOne(recorded, exit, lost);
      InsertOneMore(recorded, [exit], entry, lost);
    }
  }

  /** After an entry the table holds the frozen price exactly when the insert was not lost and no other price was
      on record for that kind and bar. */
  lemma EntryIsRecordedIff(s: State, t: Tick)
    requires SoundTick(t) && Enters(s, t)
    ensures var k := (EntryKind(t.dash.durum), t.bar);
            RecordedAgrees(Next(s, t)) <==> (if k in s.recorded then s.recorded[k] == t.dash.giris.value else k.0 !in t.lost)
  {
    EdgesEndInEntry(s.emitted, SideOf(Prev(s, t)), t.dash, t.bar, t.lastClose);
    InsertedEdges(s.recorded, SideOf(Prev(s, t)), t.dash, t.bar, t.lastClose, t.lost);
    hide Edges, InsertAll;
  }

  lemma OtherTicksKeepRecorded(s: State, t: Tick)
    requires SoundTick(t) && !Enters(s, t) && FrozenAtEntry(s) && RecordedAgrees(s)
    ensures RecordedAgrees(Next(s, t))
  {
    if t.Computed? && t.saved && t.dash.durum != Notr {
      EdgesEndInEntry(s.emitted, SideOf(Prev(s, t)), t.dash, t.bar, t.lastClose);
      var e := LastEntry(s.emitted).value;
      InsertingKeeps(s.recorded, Emits(s, t), t.lost, (e.kind, e.bar));
    }
  }

  /** The table takes the entry the tick emits, if any: its insert is not lost on a free kind and bar, or the
      price on record there is the same. */
  predicate EntryTaken(s: State, t: Tick)
    requires SoundTick(t)
  {
    Enters(s, t) ==>
      var k := (EntryKind(t.dash.durum), t.bar);
      if k in s.recorded then s.recorded[k] == t.dash.giris.value else k.0 !in t.lost
  }

  lemma TakenTickKeepsRecorded(s: State, t: Tick)
    requires SoundTick(t) && FrozenAtEntry(s) && RecordedAgrees(s) && EntryTaken(s, t)
    ensures RecordedAgrees(Next(s, t))
  {
    hide RecordedAgrees, FrozenAtEntry, Next, Enters;
    if Enters(s, t) {
      EntryIsRecordedIff(s, t);
    } else {
      OtherTicksKeepRecorded(s, t);
    }
  }

  lemma {:induction false} RecordedWhileTaken(ticks: seq<Tick>, k: nat)
    requires k <= |ticks| && forall t :: t in ticks ==> SoundTick(t)
    requires forall i :: 0 <= i < k ==> EntryTaken(After(ticks[..i]), ticks[i])
    ensures RecordedAgrees(After(ticks[..k]))
    decreases k
  {
    hide Next, EntryTaken, FrozenAtEntry, Sound;
    if k == 0 {
      assert ticks[..0] == [] && RecordedAgrees(After([]));
    } else {
      hide After, RecordedAgrees;
      RecordedWhileTaken(ticks, k - 1);
      EntryPriceIsFrozen(ticks[..k - 1]);
      assert ticks[..k] == ticks[..k - 1] + [ticks[k - 1]];
      AfterOneMore(ticks[..k - 1], ticks[k - 1]);
      TakenTickKeepsRecorded(After(ticks[..k - 1]), ticks[k - 1]);
    }
  }

  lemma UntakenTickDisagrees(ticks: seq<Tick>, i: nat)
    requires i < |ticks| && SoundTick(ticks[i]) && !EntryTaken(After(ticks[..i]), ticks[i])
    ensures !RecordedAgrees(After(ticks[..i + 1]))
  {
    hide After, Next, RecordedAgrees, Enters;
    assert ticks[..i + 1] == ticks[..i] + [ticks[i]];
    AfterOneMore(ticks[..i], ticks[i]);
    EntryIsRecordedIff(After(ticks[..i]), ticks[i]);
  }

  /** The table holds the frozen price after every tick of a run exactly when it took every entry of the run. */
  lemma RecordedPriceIsFrozenIff(ticks: seq<Tick>)
    requires forall t :: t in ticks ==> SoundTick(t)
    ensures (forall k :: 0 <= k <= |ticks| ==> RecordedAgrees(After(ticks[..k])))
       <==> (forall i :: 0 <= i < |ticks| ==> EntryTaken(After(ticks[..i]), ticks[i]))
  {
    hide RecordedAgrees, EntryTaken, After;
    if forall i :: 0 <= i < |ticks| ==> EntryTaken(After(ticks[..i]), ticks[i]) {
      forall k | 0 <= k <= |ticks| ensures RecordedAgrees(After(ticks[..k])) {
        RecordedWhileTaken(ticks, k);
      }
    } else {
      var i :| 0 <= i < |ticks| && !EntryTaken(After(ticks[..i]), ticks[i]);
      UntakenTickDisagrees(ticks, i);
    }
  }

  const ENTER_AT_100 := Computed(Dashboard(Long, Some(100.0), Some(90.0), Some(120.0)), Some(100.0), 1, true, true, {})
  const LEAVE := Computed(Dashboard(Notr, None, None, None), Some(101.0), 1, true, true, {})
  const ENTER_AT_102 := Computed(Dashboard(Long, Some(102.0), Some(90.0), Some(120.0)), Some(102.0), 1, true, true, {})

  const AT_100 := State(Some(Board(Long, Some(100.0), Some(90.0), Some(120.0), Some(100.0))),
    [Event(LongEntry, 1, 100.0)], map[(LongEntry, 1) := 100.0])
  const LEFT := State(Some(Board(Notr, None, None, None, None)),
    [Event(LongEntry, 1, 100.0), Event(LongExit, 1, 101.0)], map[(LongEntry, 1) := 100.0, (LongExit, 1) := 101.0])

  /** A tick with a single edge emits and inserts just that event. */
  lemma SingleEdge(s: State, t: Tick, k: Kind, px: real)
    requires t.Computed? && t.saved && Kinds(SideOf(Prev(s, t)), t.dash.durum) == [k]
    requires ReferencePrice(t.dash, t.lastClose) == Some(px)
    ensures var e := Event(k, t.bar, px);
            Next(s, t) == State(Some(Attached(t.dash, Prev(s, t), t.lastClose)), s.emitted + [e], Insert(s.recorded, e, t.lost))
  {
    OneEdge([k], t.bar, px);
    InsertOne(s.recorded, Event(k, t.bar, px), t.lost);
    hide EventsFor, InsertAll, Attached, Kinds, ReferencePrice;
  }

  lemma FirstEntry()
    ensures Next(INIT, ENTER_AT_100) == AT_100
  {
    hide Next;
    SingleEdge(INIT, ENTER_AT_100, LongEntry, 100.0);
  }

  lemma FirstExit()
    ensures Next(AT_100, LEAVE) == LEFT
  {
    hide Next;
    SingleEdge(AT_100, LEAVE, LongExit, 101.0);
  }

  lemma ThreeTicks(a: Tick, b: Tick, c: Tick)
    ensures After([a, b, c]) == Next(Next(Next(INIT, a), b), c)
  {
    assert After([]) == INIT;
    hide *;
    AfterOneMore([], a);
    AfterOneMore([a], b);
    AfterOneMore([a, b], c);
    assert [] + [a] == [a] && [a] + [b] == [a, b] && [a, b] + [c] == [a, b, c];
  }

  /** The ticks of the witness runs below have sound dashboards. */
  lemma WitnessTicksAreSound()
    ensures forall t :: t in {ENTER_AT_100, LEAVE, ENTER_AT_102, TooFewBars(true)} ==> SoundTick(t)
  {
  }

  lemma SecondEntry()
    ensures Enters(LEFT, ENTER_AT_102)
    ensures (LongEntry, 1) in LEFT.recorded && LEFT.recorded[(LongEntry, 1)] == 100.0
  {
  }

  /** Leaving and re-entering within one bar: the second entry at 102 is not recorded, and the table keeps 100. */
  lemma ReentryInOneBarDiffers()
    ensures var s := After([ENTER_AT_100, LEAVE, ENTER_AT_102]);
            FrozenAtEntry(s) && !RecordedAgrees(s)
  {
    hide After, Next, FrozenAtEntry, RecordedAgrees, Enters, SoundTick;
    WitnessTicksAreSound();
    ThreeTicks(ENTER_AT_100, LEAVE, ENTER_AT_102);
    FirstEntry();
    FirstExit();
    SecondEntry();
    EntryIsRecordedIff(LEFT, ENTER_AT_102);
    EntryPriceIsFrozen([ENTER_AT_100, LEAVE, ENTER_AT_102]);
  }

  // ---------------------------------------------------------------------------
  // Entries and exits in pairs
  // ---------------------------------------------------------------------------

  /** The side that the events have entered and not left. */
  function Standing(es: seq<Event>): Side {
    if es == [] then Notr
    else match es[|es| - 1].kind
      case LongEntry => Long
      case ShortEntry => Short
      case _ => Notr
  }

  /** The event fits after `standing`: entries out of the market only, exits of the side held. */
  predicate Fits(standing: Side, k: Kind) {
    match k
    case LongEntry => standing == Notr
    case ShortEntry => standing == Notr
    case LongExit => standing == Long
    case ShortExit => standing == Short
  }

  predicate Paired(es: seq<Event>) {
    es != [] ==> Paired(es[..|es| - 1]) && Fits(Standing(es[..|es| - 1]), es[|es| - 1].kind)
  }

  function Held(seen: Option<Side>): Side { if seen.Some? then seen.value else Notr }

  lemma PairedAppend(es: seq<Event>, e: Event)
    ensures Paired(es + [e]) <==> Paired(es) && Fits(Standing(es), e.kind)
  {
    assert (es + [e])[..|es|] == es;
  }

  lemma OneEdgePairs(es: seq<Event>, prev: Option<Side>, now: Side, bar: int, px: real)
    requires Paired(es) && |Kinds(prev, now)| == 1
    ensures var after := es + EventsFor(Kinds(prev, now), bar, px);
            (Paired(after) <==> Held(prev) == Standing(es)) && Standing(after) == now
  {
    hide EventsFor, Paired;
    OneEdge(Kinds(prev, now), bar, px);
    PairedAppend(es, Event(Kinds(prev, now)[0], bar, px));
  }

  lemma TwoEdgesPair(es: seq<Event>, prev: Option<Side>, now: Side, bar: int, px: real)
    requires Paired(es) && |Kinds(prev, now)| == 2
    ensures var after := es + EventsFor(Kinds(prev, now), bar, px);
            (Paired(after) <==> Held(prev) == Standing(es)) && Standing(after) == now
  {
    hide EventsFor, Paired;
    var kinds := Kinds(prev, now);
    TwoEdges(kinds, bar, px);
    var exit, entry := Event(kinds[0], bar, px), Event(kinds[1], bar, px);
    assert es + [exit, entry] == (es + [exit]) + [entry];
    PairedAppend(es, exit);
    PairedAppend(es + [exit], entry);
  }

  lemma NoKindsNoEvents(bar: int, px: real)
    ensures EventsFor([], bar, px) == []
  {
  }

  lemma KindsAreFew(prev: Option<Side>, now: Side)
    ensures |Kinds(prev, now)| <= 2
  {
  }

  lemma EdgesPair(es: seq<Event>, prev: Option<Side>, d: Dashboard, bar: int, lastClose: Option<real>)
    requires Paired(es) && Edges(prev, d, bar, lastClose) != []
    ensures var after := es + Edges(prev, d, bar, lastClose);
            (Paired(after) <==> Held(prev) == Standing(es)) && Standing(after) == d.durum
  {
    hide EventsFor, Paired, Standing, Kinds, Held;
    var px, kinds := ReferencePrice(d, lastClose).value, Kinds(prev, d.durum);
    KindsAreFew(prev, d.durum);
    NoKindsNoEvents(bar, px);
    if |kinds| == 1 {
      OneEdgePairs(es, prev, d.durum, bar, px);
    } else if |kinds| == 2 {
      TwoEdgesPair(es, prev, d.durum, bar, px);
    }
  }

  /** A tick that emits anything keeps entries and exits in pairs exactly when the payload it read shows the side
      that the events so far have entered. */
  lemma EdgesPairIff(s: State, t: Tick)
    requires Paired(s.emitted) && SoundTick(t) && Emits(s, t) != []
    ensures Paired(Next(s, t).emitted) <==> Held(SideOf(Prev(s, t))) == Standing(s.emitted)
    ensures Standing(Next(s, t).emitted) == t.dash.durum
  {
    hide Edges, Paired, Standing, InsertAll;
    EdgesPair(s.emitted, SideOf(Prev(s, t)), t.dash, t.bar, t.lastClose);
  }

  /** A tick that emits has read a payload that shows the side entered so far. */
  predicate SeesStanding(s: State, t: Tick) {
    Emits(s, t) != [] ==> Held(SideOf(Prev(s, t))) == Standing(s.emitted)
  }

  lemma SilentTickEmitsNothing(s: State, t: Tick)
    requires Emits(s, t) == []
    ensures Next(s, t).emitted == s.emitted
  {
    assert s.emitted + [] == s.emitted;
  }

  lemma TickPairs(s: State, t: Tick)
    requires Paired(s.emitted) && SoundTick(t)
    ensures Paired(Next(s, t).emitted) <==> SeesStanding(s, t)
  {
    hide Paired, Next, Emits, Held, Standing;
    if Emits(s, t) == [] {
      SilentTickEmitsNothing(s, t);
    } else {
      EdgesPairIff(s, t);
    }
  }

  lemma {:induction false} PairedWhileSeen(ticks: seq<Tick>, k: nat)
    requires k <= |ticks| && forall t :: t in ticks ==> SoundTick(t)
    requires forall i :: 0 <= i < k ==> SeesStanding(After(ticks[..i]), ticks[i])
    ensures Paired(After(ticks[..k]).emitted)
    decreases k
  {
    hide Next, SeesStanding, Sound;
    if k == 0 {
      assert ticks[..0] == [] && Paired(After([]).emitted);
    } else {
      hide After, Paired;
      PairedWhileSeen(ticks, k - 1);
      assert ticks[..k] == ticks[..k - 1] + [ticks[k - 1]];
      AfterOneMore(ticks[..k - 1], ticks[k - 1]);
      TickPairs(After(ticks[..k - 1]), ticks[k - 1]);
    }
  }

  lemma PairedThenSeen(ticks: seq<Tick>, i: nat)
    requires i < |ticks| && SoundTick(ticks[i])
    requires Paired(After(ticks[..i]).emitted) && Paired(After(ticks[..i + 1]).emitted)
    ensures SeesStanding(After(ticks[..i]), ticks[i])
  {
    hide After, Next, Paired, SeesStanding;
    assert ticks[..i + 1] == ticks[..i] + [ticks[i]];
    AfterOneMore(ticks[..i], ticks[i]);
    TickPairs(After(ticks[..i]), ticks[i]);
  }

  /** A run keeps entries and exits in pairs after every tick exactly when each tick that emits has read a payload
      that shows the side entered so far. */
  lemma RunsPairIff(ticks: seq<Tick>)
    requires forall t :: t in ticks ==> SoundTick(t)
    ensures (forall k :: 0 <= k <= |ticks| ==> Paired(After(ticks[..k]).emitted))
       <==> (forall i :: 0 <= i < |ticks| ==> SeesStanding(After(ticks[..i]), ticks[i]))
  {
    hide Paired, SeesStanding, After;
    if forall i :: 0 <= i < |ticks| ==> SeesStanding(After(ticks[..i]), ticks[i]) {
      forall k | 0 <= k <= |ticks| ensures Paired(After(ticks[..k]).emitted) {
        PairedWhileSeen(ticks, k);
      }
    } else if forall k :: 0 <= k <= |ticks| ==> Paired(After(ticks[..k]).emitted) {
      forall i | 0 <= i < |ticks| ensures SeesStanding(After(ticks[..i]), ticks[i]) {
        PairedThenSeen(ticks, i);
      }
    }
  }

  const BLANKED := AT_100.(payload := Some(Insufficient))

  lemma Blanking()
    ensures Next(AT_100, TooFewBars(true)) == BLANKED && BLANKED.emitted == [Event(LongEntry, 1, 100.0)]
  {
  }

  lemma EntryAfterBlanking()
    ensures Next(BLANKED, ENTER_AT_102).emitted == BLANKED.emitted + [Event(LongEntry, 1, 102.0)]
  {
    hide Next;
    SingleEdge(BLANKED, ENTER_AT_102, LongEntry, 102.0);
  }

  /** A snapshot overwritten for want of bars is followed by a second entry without an exit. */
  lemma BlankedPayloadUnpairs()
    ensures !Paired(After([ENTER_AT_100, TooFewBars(true), ENTER_AT_102]).emitted)
  {
    hide Next, After, Paired;
    ThreeTicks(ENTER_AT_100, TooFewBars(true), ENTER_AT_102);
    FirstEntry();
    Blanking();
    EntryAfterBlanking();
    PairedAppend(BLANKED.emitted, Event(LongEntry, 1, 102.0));
  }

  /** No tick lost sight of the previous payload, and every close was finite. */
  predicate Unbroken(t: Tick) {
    match t
    case BarsUnreadable => true
    case TooFewBars(saved) => !saved
    case Computed(_, lastClose, _, prevRead, _, _) => prevRead && lastClose.Some?
  }

  lemma {:induction false} UnbrokenRunsPair(ticks: seq<Tick>)
    requires forall t :: t in ticks ==> SoundTick(t) && Unbroken(t)
    ensures var s := After(ticks);
            Paired(s.emitted) && Held(SideOf(s.payload)) == Standing(s.emitted) && s.payload != Some(Insufficient)
    decreases |ticks|
  {
    if ticks != [] {
      var s, t := After(ticks[..|ticks| - 1]), ticks[|ticks| - 1];
      UnbrokenRunsPair(ticks[..|ticks| - 1]);
      if Emits(s, t) != [] {
        EdgesPairIff(s, t);
      } else {
        SilentTick(s, t);
      }
    }
  }

  lemma SilentTick(s: State, t: Tick)
    requires SoundTick(t) && Unbroken(t) && Emits(s, t) == [] && s.payload != Some(Insufficient)
    ensures Next(s, t).emitted == s.emitted && Held(SideOf(Next(s, t).payload)) == Held(SideOf(s.payload))
    ensures Next(s, t).payload != Some(Insufficient)
  {
    if t.Computed? && t.saved {
      var kinds := Kinds(SideOf(s.payload), t.dash.durum);
      assert kinds == [];
      assert s.emitted + [] == s.emitted;
    }
  }

  // ---------------------------------------------------------------------------
  // The stored rows
  // ---------------------------------------------------------------------------

  lemma NoEdges(recorded: Events, lost: set<Kind>)
    ensures InsertAll(recorded, [], lost) == recorded
  {
  }

  class SnapshotStore {
    var payload: Option<Payload>
    var recorded: Events
    ghost var emitted: seq<Event>

    ghost function Snapshot(): State
      reads this
    {
      State(payload, emitted, recorded)
    }

    constructor ()
      ensures Snapshot() == INIT
    {
      payload, recorded, emitted := None, map[], [];
    }

    /** `attach_setup_entry_price` on a copy of the dashboard payload. */
    method AttachSetupEntryPrice(d: Dashboard, prev: Option<Payload>, lastClose: Option<real>) returns (p: Payload)
      ensures p == Attached(d, prev, lastClose)
    {
      p := Board(d.durum, d.giris, d.stop, d.takeProfit, None);
      if !((d.durum == Long || d.durum == Short) && Complete(d)) {
        return;
      }
      var prevSide := SideOf(prev);
      var prevNotr, prevSameSide := prevSide.None? || prevSide.value == Notr, prevSide == Some(d.durum);
      var engineGiris := Or(d.giris, lastClose);
      var frozen := engineGiris;
      if !(prevNotr || !prevSameSide) {
        frozen := Or(Or(prev.value.setupEntry, prev.value.giris), engineGiris);
      }
      p := p.(setupEntry := frozen, giris := frozen);
    }

    /** `record_range_signal_events_on_durum_change`. */
    method RecordEvents(d: Dashboard, prev: Option<Payload>, lastClose: Option<real>, bar: int, lost: set<Kind>)
      modifies this`recorded, this`emitted
      ensures emitted == old(emitted) + Edges(SideOf(prev), d, bar, lastClose)
      ensures recorded == InsertAll(old(recorded), Edges(SideOf(prev), d, bar, lastClose), lost)
    {
      var kinds := Kinds(SideOf(prev), d.durum);
      var px := ReferencePrice(d, lastClose);
      hide Kinds, ReferencePrice, InsertAll;
      NoEdges(recorded, lost);
      if kinds == [] || px.None? {
        assert emitted + [] == emitted;
        return;
      }
      for i := 0 to |kinds|
        invariant emitted == old(emitted) + EventsFor(kinds[..i], bar, px.value)
        invariant recorded == InsertAll(old(recorded), EventsFor(kinds[..i], bar, px.value), lost)
      {
        ghost var before := EventsFor(kinds[..i], bar, px.value);
        var e := Event(kinds[i], bar, px.value);
        assert kinds[..i + 1][..i] == kinds[..i];
        InsertOneMore(old(recorded), before, e, lost);
        emitted := emitted + [e];
        if e.kind !in lost && (e.kind, e.bar) !in recorded {
          recorded := recorded[(e.kind, e.bar) := e.price];
        }
      }
      assert kinds[..|kinds|] == kinds;
    }

    /** One pass of the loop over one symbol. */
    method RunTick(t: Tick)
      modifies this
      ensures Snapshot() == Next(old(Snapshot()), t)
      ensures SoundTick(t) && old(FrozenAtEntry(Snapshot())) ==> FrozenAtEntry(Snapshot())
    {
      if SoundTick(t) && FrozenAtEntry(Snapshot()) {
        TickKeepsFrozen(Snapshot(), t);
      }
      match t
      case BarsUnreadable =>
      case TooFewBars(saved) =>
        if saved {
          payload := Some(Insufficient);
        }
      case Computed(d, lastClose, bar, prevRead, saved, lost) =>
        var prev := if prevRead then payload else None;
        var p := AttachSetupEntryPrice(d, prev, lastClose);
        if saved {
          payload := Some(p);
          RecordEvents(d, prev, lastClose, bar, lost);
        }
    }
  }
}
