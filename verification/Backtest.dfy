/**
 The backtest account: market orders that open and close one position on spot or linear futures,
 marked equity, the largest affordable order, and the bar loop that drives a strategy.
 Money is exact; a strategy is the list of orders it sends on each bar.
 */
module Backtest {
  import opened Options
  import opened Reals

  datatype Side = Buy | Sell
  datatype Refusal = InvalidQty | InsufficientCash | InvalidOrderForPosition
  datatype Order = Order(side: Side, qty: real, price: real, ts: int, slipBps: nat, feeBps: nat)
  datatype Position = Position(side: Side, qty: real, entryPx: real, entryTs: int, entryFee: real, margin: real)
  datatype Trade = Trade(entryTs: int, exitTs: int, side: Side, qty: real, entryPx: real, exitPx: real, pnl: real, fee: real)
  datatype Market = Market(futures: bool, leverage: real)
  datatype Account = Account(cash: real, position: Option<Position>, closed: seq<Trade>)
  datatype Bar = Bar(ts: int, close: real)
  datatype EquityPoint = EquityPoint(ts: int, equity: real)

  // ---------------------------------------------------------------------------
  // One order
  // ---------------------------------------------------------------------------

  function FillPrice(o: Order): real {
    var slip := Times(o.price, o.slipBps as real) / 10000.0;
    if o.side == Buy then o.price + slip else o.price - slip
  }

  function Notional(o: Order): real { Times(FillPrice(o), o.qty) }

  function Fee(o: Order): real { Times(Notional(o), o.feeBps as real) / 10000.0 }

  function Leverage(m: Market): (r: real)
    ensures r >= 1.0
  {
    if m.leverage > 1.0 then m.leverage else 1.0
  }

  function Margin(m: Market, o: Order): real { if m.futures then Notional(o) / Leverage(m) else 0.0 }

  /** Cash that must be at hand to open. */
  function OpenCost(m: Market, o: Order): real { (if m.futures then Margin(m, o) else Notional(o)) + Fee(o) }

  /** Profit of `qty` units of position `p` at price `px`, before fees. */
  function Gain(p: Position, px: real, qty: real): real {
    match p.side
    case Buy => Times(px - p.entryPx, qty)
    case Sell => Times(p.entryPx - px, qty)
  }

  predicate Short(m: Market, a: Account, o: Order) {
    match a.position
    case None => (m.futures || o.side == Buy) && a.cash < OpenCost(m, o)
    case Some(_) => !m.futures && o.side == Buy && a.cash < Notional(o) + Fee(o)
  }

  /** Why the order is refused, if it is. */
  function Verdict(m: Market, a: Account, o: Order): Option<Refusal> {
    if o.qty <= 0.0 then Some(InvalidQty)
    else if a.position.Some? && a.position.value.side == o.side then Some(InvalidOrderForPosition)
    else if Short(m, a, o) then Some(InsufficientCash)
    else None
  }

  /** Why an order is refused: it has no quantity; it would add to the position; or, for what costs cash, spot buys and
      futures openings, it would leave less than none. */
  lemma WhenRefused(m: Market, a: Account, o: Order)
    ensures var sameSide := a.position.Some? && a.position.value.side == o.side;
            var costsCash := if a.position.None? then m.futures || o.side == Buy else !m.futures && o.side == Buy;
            var after := if a.position.None? then Opened(m, a, o) else Closed(m, a, a.position.value, o);
            && (Verdict(m, a, o) == Some(InvalidQty) <==> o.qty <= 0.0)
            && (Verdict(m, a, o) == Some(InvalidOrderForPosition) <==> o.qty > 0.0 && sameSide)
            && (Verdict(m, a, o) == Some(InsufficientCash) <==> o.qty > 0.0 && !sameSide && costsCash && after.cash < 0.0)
  {
    hide Fee, Notional, Margin;
  }

  function Opened(m: Market, a: Account, o: Order): Account {
    var paid := if m.futures || o.side == Buy then OpenCost(m, o) else Fee(o) - Notional(o);
    Account(a.cash - paid, Some(Position(o.side, o.qty, FillPrice(o), o.ts, Fee(o), Margin(m, o))), a.closed)
  }

  function TradeOf(p: Position, o: Order): Trade {
    var fee := p.entryFee + Fee(o);
    Trade(p.entryTs, o.ts, p.side, o.qty, p.entryPx, FillPrice(o), Gain(p, FillPrice(o), o.qty) - fee, fee)
  }

  function Closed(m: Market, a: Account, p: Position, o: Order): Account {
    var received :=
      if m.futures then p.margin + Gain(p, FillPrice(o), o.qty)
      else if o.side == Buy then -Notional(o)
      else Notional(o);
    Account(a.cash + received - Fee(o), None, a.closed + [TradeOf(p, o)])
  }

  /** The account after `market_order`. */
  function Placed(m: Market, a: Account, o: Order): Account {
    if Verdict(m, a, o).Some? then a
    else match a.position
      case None => Opened(m, a, o)
      case Some(p) => Closed(m, a, p, o)
  }

  /** `mark_equity`. */
  function Mark(m: Market, a: Account, px: real): real {
    match a.position
    case None => a.cash
    case Some(p) =>
      if m.futures then a.cash + p.margin + Gain(p, px, p.qty)
      else if p.side == Buy then a.cash + Times(p.qty, px)
      else a.cash - Times(p.qty, px)
  }

  // ---------------------------------------------------------------------------
  // The ledger
  // ---------------------------------------------------------------------------

  function SumPnl(ts: seq<Trade>): real {
    if ts == [] then 0.0 else SumPnl(ts[..|ts| - 1]) + ts[|ts| - 1].pnl
  }

  function OpenFee(a: Account): real { if a.position.Some? then a.position.value.entryFee else 0.0 }

  function Unrealised(a: Account, px: real): real {
    match a.position
    case None => 0.0
    case Some(p) => Gain(p, px, p.qty)
  }

  /** What the trades say the account is worth at `px`. */
  function Ledger(initial: real, a: Account, px: real): real {
    initial + SumPnl(a.closed) - OpenFee(a) + Unrealised(a, px)
  }

  predicate Closes(m: Market, a: Account, o: Order) { Verdict(m, a, o).None? && a.position.Some? }

  /** A spot close whose size is not the position's own. */
  predicate Mismatched(m: Market, a: Account, o: Order) {
    Closes(m, a, o) && !m.futures && o.qty != a.position.value.qty && a.position.value.entryPx != 0.0
  }

  /** Money that appears in spot cash without appearing in any trade when a close has another size than the position. */
  function Leak(m: Market, a: Account, o: Order): real {
    if Closes(m, a, o) && !m.futures then
      var p := a.position.value;
      var l := Times(p.entryPx, o.qty - p.qty);
      if p.side == Buy then l else -l
    else 0.0
  }

  function Trading(m: Market, a: Account, os: seq<Order>): Account {
    if os == [] then a else Placed(m, Trading(m, a, os[..|os| - 1]), os[|os| - 1])
  }

  function Leaks(m: Market, a: Account, os: seq<Order>): real {
    if os == [] then 0.0
    else var before := os[..|os| - 1];
      Leaks(m, a, before) + Leak(m, Trading(m, a, before), os[|os| - 1])
  }

  function Fresh(initial: real): Account { Account(initial, None, []) }

  /** The part of marked equity that does not move with the price. */
  function Booked(m: Market, a: Account): real {
    match a.position
    case None => a.cash
    case Some(p) =>
      if m.futures then a.cash + p.margin
      else if p.side == Buy then a.cash + Times(p.entryPx, p.qty)
      else a.cash - Times(p.entryPx, p.qty)
  }

  lemma Spread(x: real, y: real, q: real)
    ensures Times(x - y, q) == Times(x, q) - Times(y, q)
    ensures Times(q, x) == Times(x, q)
  {
  }

  lemma MarkSplits(m: Market, a: Account, px: real)
    ensures Mark(m, a, px) == Booked(m, a) + Unrealised(a, px)
  {
    hide Times;
    if a.position.Some? {
      var p := a.position.value;
      Spread(px, p.entryPx, p.qty);
      Spread(p.entryPx, px, p.qty);
    }
  }

  /** Books gain what the trades gain, plus the leak. */
  lemma OrderKeepsBooks(m: Market, a: Account, o: Order)
    ensures var b := Placed(m, a, o);
            Booked(m, b) == Booked(m, a) + (SumPnl(b.closed) - SumPnl(a.closed)) - (OpenFee(b) - OpenFee(a)) + Leak(m, a, o)
  {
    hide Times, Fee, FillPrice;
    if Closes(m, a, o) {
      var p := a.position.value;
      var b := Placed(m, a, o);
      assert b.closed[..|b.closed| - 1] == a.closed;
      Spread(FillPrice(o), p.entryPx, o.qty);
      Spread(p.entryPx, FillPrice(o), o.qty);
      TimesMinus(p.entryPx, o.qty, p.qty);
    }
  }

  /** After any orders, accepted or refused, on spot or futures: marked equity is what the trades say,
      plus the leaks of wrongly sized spot closes. */
  lemma {:induction false} LedgerIdentity(m: Market, initial: real, os: seq<Order>, px: real)
    ensures var a := Trading(m, Fresh(initial), os);
            Mark(m, a, px) == Ledger(initial, a, px) + Leaks(m, Fresh(initial), os)
    decreases |os|
  {
    var a := Trading(m, Fresh(initial), os);
    MarkSplits(m, a, px);
    if os != [] {
      var before := os[..|os| - 1];
      var a' := Trading(m, Fresh(initial), before);
      hide Placed, Leak, Booked, Mark, Unrealised, OpenFee;
      LedgerIdentity(m, initial, before, px);
      MarkSplits(m, a', px);
      OrderKeepsBooks(m, a', os[|os| - 1]);
    }
  }

  lemma LeaksOnlyWhenMismatched(m: Market, a: Account, o: Order)
    ensures Leak(m, a, o) == 0.0 <==> !Mismatched(m, a, o)
  {
    if Closes(m, a, o) && !m.futures {
      var p := a.position.value;
      var d := o.qty - p.qty;
      if d != 0.0 && p.entryPx != 0.0 {
        NonzeroProduct(p.entryPx, d);
      }
    }
  }

  lemma NonzeroProduct(x: real, y: real)
    requires x != 0.0 && y != 0.0
    ensures Times(x, y) != 0.0
  {
    assert Times(x, y) / y == x;
  }

  lemma Prefixes<T>(s: seq<T>)
    requires s != []
    ensures forall k :: 0 <= k < |s| - 1 ==> s[..|s| - 1][..k] == s[..k] && s[..|s| - 1][k] == s[k]
  {
  }

  predicate Matched(m: Market, a: Account, os: seq<Order>) {
    forall k :: 0 <= k < |os| ==> !Mismatched(m, Trading(m, a, os[..k]), os[k])
  }

  lemma {:induction false} MatchedRunsDoNotLeak(m: Market, a: Account, os: seq<Order>)
    requires Matched(m, a, os)
    ensures Leaks(m, a, os) == 0.0
    decreases |os|
  {
    hide Mismatched, Leak, Placed;
    if os != [] {
      var before := os[..|os| - 1];
      Prefixes(os);
      MatchedRunsDoNotLeak(m, a, before);
      LeaksOnlyWhenMismatched(m, Trading(m, a, before), os[|os| - 1]);
    }
  }

  lemma MatchedRunsBalance(m: Market, initial: real, os: seq<Order>, k: nat, px: real)
    requires k <= |os| && Matched(m, Fresh(initial), os)
    ensures var a := Trading(m, Fresh(initial), os[..k]); Mark(m, a, px) == Ledger(initial, a, px)
  {
    hide Mismatched, Mark, Ledger;
    assert forall i :: 0 <= i < k ==> os[..k][..i] == os[..i] && os[..k][i] == os[i];
    MatchedRunsDoNotLeak(m, Fresh(initial), os[..k]);
    LedgerIdentity(m, initial, os[..k], px);
  }

  lemma MismatchUnbalances(m: Market, initial: real, os: seq<Order>, k: nat)
    requires k < |os| && Mismatched(m, Trading(m, Fresh(initial), os[..k]), os[k])
    ensures (var a := Trading(m, Fresh(initial), os[..k]); Mark(m, a, 0.0) != Ledger(initial, a, 0.0))
         || (var a := Trading(m, Fresh(initial), os[..k + 1]); Mark(m, a, 0.0) != Ledger(initial, a, 0.0))
  {
    hide Mark, Ledger, Leak, Mismatched, Placed;
    assert os[..k + 1][..k] == os[..k];
    LedgerIdentity(m, initial, os[..k], 0.0);
    LedgerIdentity(m, initial, os[..k + 1], 0.0);
    LeaksOnlyWhenMismatched(m, Trading(m, Fresh(initial), os[..k]), os[k]);
  }

  /** Equity is what the trades say after `k` orders of the run, at every price. */
  ghost predicate Balances(m: Market, initial: real, os: seq<Order>, k: nat)
    requires k <= |os|
  {
    var a := Trading(m, Fresh(initial), os[..k]);
    forall px :: Mark(m, a, px) == Ledger(initial, a, px)
  }

  /** Equity agrees with the trades after every order of a run, at every price, exactly when no spot close
      has another size than the position it closes. */
  lemma BooksBalanceIff(m: Market, initial: real, os: seq<Order>)
    ensures (forall k :: 0 <= k <= |os| ==> Balances(m, initial, os, k)) <==> Matched(m, Fresh(initial), os)
  {
    hide Mark, Ledger, Mismatched, Trading;
    if Matched(m, Fresh(initial), os) {
      forall k, px | 0 <= k <= |os|
        ensures var a := Trading(m, Fresh(initial), os[..k]); Mark(m, a, px) == Ledger(initial, a, px)
      {
        MatchedRunsBalance(m, initial, os, k, px);
      }
    } else {
      var k :| 0 <= k < |os| && Mismatched(m, Trading(m, Fresh(initial), os[..k]), os[k]);
      MismatchUnbalances(m, initial, os, k);
      assert !Balances(m, initial, os, k) || !Balances(m, initial, os, k + 1);
    }
  }

  const BUY_ONE := Order(Buy, 1.0, 100.0, 0, 0, 0)
  const SELL_TWO := Order(Sell, 2.0, 100.0, 1, 0, 0)

  /** Buying one unit on spot and selling two is accepted, and leaves 100 that no trade explains. */
  lemma OversizedCloseLeaks()
    ensures var m, os := Market(false, 1.0), [BUY_ONE, SELL_TWO];
            var a := Trading(m, Fresh(1000.0), os);
            && Verdict(m, Trading(m, Fresh(1000.0), os[..1]), SELL_TWO).None?
            && a.position.None? && Mark(m, a, 100.0) == 1100.0 && Ledger(1000.0, a, 100.0) == 1000.0
  {
    var m, f := Market(false, 1.0), Fresh(1000.0);
    BuyOne();
    SellTwo();
    TwoOrders(m, f, BUY_ONE, SELL_TWO);
    OneTrade(LAST_TRADE);
    hide Placed, Verdict, Trading, Times, SumPnl;
  }

  lemma TwoOrders(m: Market, a: Account, o: Order, o': Order)
    ensures Trading(m, a, [o, o'][..1]) == Placed(m, a, o)
    ensures Trading(m, a, [o, o']) == Placed(m, Placed(m, a, o), o')
  {
    hide Placed;
    assert [o, o'][..1] == [o] && [o][..0] == [];
  }

  lemma OneTrade(t: Trade)
    ensures SumPnl([t]) == t.pnl
  {
    assert [t][..0] == [];
  }

  const HOLDING := Account(900.0, Some(Position(Buy, 1.0, 100.0, 0, 0.0, 0.0)), [])
  const LAST_TRADE := Trade(0, 1, Buy, 2.0, 100.0, 100.0, 0.0, 0.0)

  lemma BuyOne()
    ensures Placed(Market(false, 1.0), Fresh(1000.0), BUY_ONE) == HOLDING
  {
  }

  lemma SellTwo()
    ensures Verdict(Market(false, 1.0), HOLDING, SELL_TWO).None?
    ensures Placed(Market(false, 1.0), HOLDING, SELL_TWO) == Account(1100.0, None, [LAST_TRADE])
  {
  }

  // ---------------------------------------------------------------------------
  // Slippage and fees
  // ---------------------------------------------------------------------------

  /** What the accepted order `o` was filled at, as the account records it: the entry of the position it opened, or
      the exit of the trade it closed. */
  function RecordedFill(m: Market, a: Account, o: Order): real
    requires Verdict(m, a, o).None?
  {
    var b := Placed(m, a, o);
    if a.position.None? then b.position.value.entryPx else b.closed[|b.closed| - 1].exitPx
  }

  /** The fee the account records for the accepted order `o` alone. */
  function RecordedFee(m: Market, a: Account, o: Order): real
    requires Verdict(m, a, o).None?
  {
    var b := Placed(m, a, o);
    if a.position.None? then b.position.value.entryFee
    else b.closed[|b.closed| - 1].fee - a.position.value.entryFee
  }

  /** Slippage works against the order: a buy fills at or above the quoted price and a sell at or below it, by
      `slipBps` ten-thousandths of the price; the fee is `feeBps` ten-thousandths of what was filled. */
  lemma FillsAreWorse(m: Market, a: Account, o: Order)
    requires Verdict(m, a, o).None?
    ensures var px := RecordedFill(m, a, o);
            && 10000.0 * (if o.side == Buy then px - o.price else o.price - px) == Times(o.price, o.slipBps as real)
            && (o.price >= 0.0 ==> if o.side == Buy then px >= o.price else px <= o.price)
            && 10000.0 * RecordedFee(m, a, o) == Times(Times(px, o.qty), o.feeBps as real)
  {
    if o.price >= 0.0 {
      TimesMono(o.price, 0.0, o.slipBps as real);
    }
    TimesUnits(o.price);
    hide Times, Verdict;
  }

  /** Closing a position at the price at which it was opened costs the slippage and the fees of both orders, on spot
      and on futures; so it never raises equity while slippage stays within the whole price. */
  lemma RoundTripCosts(m: Market, a: Account, o: Order, o': Order)
    requires a.position.None? && Verdict(m, a, o).None? && Verdict(m, Placed(m, a, o), o').None?
    requires o'.qty == o.qty && o'.price == o.price
    ensures var b := Placed(m, Placed(m, a, o), o');
            var fees := RecordedFee(m, a, o) + RecordedFee(m, Placed(m, a, o), o');
            && b.position.None? && |b.closed| == |a.closed| + 1
            && 10000.0 * (a.cash - b.cash - fees) == Times(Times(o.price, o.slipBps as real + o'.slipBps as real), o.qty)
            && (o.price >= 0.0 && o.slipBps <= 10000 && o'.slipBps <= 10000 ==> b.cash <= a.cash)
  {
    var mid := Placed(m, a, o);
    hide *;
    RoundTripCloses(m, a, o, o');
    OrderKeepsBooks(m, a, o);
    OrderKeepsBooks(m, mid, o');
    if o.price >= 0.0 && o.slipBps <= 10000 && o'.slipBps <= 10000 {
      FeeIsNonNegative(o);
      FeeIsNonNegative(o');
      SlipsAreNonNegative(o, o');
    }
  }

  /** What the books of a round trip hold: one trade more, whose profit is the slippage and the fees lost. */
  lemma RoundTripCloses(m: Market, a: Account, o: Order, o': Order)
    requires a.position.None? && Verdict(m, a, o).None? && Verdict(m, Placed(m, a, o), o').None?
    requires o'.qty == o.qty && o'.price == o.price
    ensures o.qty > 0.0
    ensures var mid := Placed(m, a, o);
            var b := Placed(m, mid, o');
            var pnl := SumPnl(b.closed) - SumPnl(a.closed);
            && RecordedFee(m, a, o) == Fee(o) && RecordedFee(m, mid, o') == Fee(o')
            && b.position.None? && |b.closed| == |a.closed| + 1
            && Booked(m, a) == a.cash && Booked(m, b) == b.cash && OpenFee(a) == OpenFee(b) == 0.0
            && Leak(m, a, o) == 0.0 && Leak(m, mid, o') == 0.0
            && 10000.0 * (-pnl - Fee(o) - Fee(o')) == Times(Times(o.price, o.slipBps as real + o'.slipBps as real), o.qty)
  {
    var mid := Placed(m, a, o);
    var b := Placed(m, mid, o');
    LeaksOnlyWhenMismatched(m, mid, o');
    assert b.closed[..|b.closed| - 1] == a.closed;
    SlipsAddUp(o, o');
    hide Times, Fee, Notional, FillPrice, Leak, OpenCost, Short, Margin;
  }

  lemma SlipsAddUp(o: Order, o': Order)
    requires o'.qty == o.qty && o'.price == o.price && o'.side != o.side
    ensures var loss := Times(Times(o.price, o.slipBps as real + o'.slipBps as real), o.qty);
            10000.0 * (if o.side == Buy then Times(FillPrice(o) - FillPrice(o'), o.qty)
                       else Times(FillPrice(o') - FillPrice(o), o.qty)) == loss
            && Times(FillPrice(o) - FillPrice(o'), o.qty) == -Times(FillPrice(o') - FillPrice(o), o.qty)
  {
    var x, y, p, q := o.slipBps as real, o'.slipBps as real, o.price, o.qty;
    assert p * (x + y) == p * x + p * y;
  }

  lemma FeeIsNonNegative(o: Order)
    requires o.price >= 0.0 && o.slipBps <= 10000 && o.qty > 0.0
    ensures Fee(o) >= 0.0
  {
    hide Times;
    AtMostWhole(o.price, o.slipBps);
    TimesMono(o.qty, 0.0, FillPrice(o));
    Spread(FillPrice(o), 0.0, o.qty);
    TimesUnits(o.qty);
    TimesMono(Notional(o), 0.0, o.feeBps as real);
    TimesUnits(Notional(o));
  }

  lemma SlipsAreNonNegative(o: Order, o': Order)
    requires o.price >= 0.0 && o.qty > 0.0
    ensures Times(Times(o.price, o.slipBps as real + o'.slipBps as real), o.qty) >= 0.0
  {
    hide Times;
    var slips := o.slipBps as real + o'.slipBps as real;
    TimesMono(o.price, 0.0, slips);
    TimesUnits(o.price);
    TimesMono(o.qty, 0.0, Times(o.price, slips));
    Spread(Times(o.price, slips), 0.0, o.qty);
    TimesUnits(o.qty);
  }

  // ---------------------------------------------------------------------------
  // Spot against futures
  // ---------------------------------------------------------------------------

  /** Both markets accept the same orders, run after run. */
  predicate SameAccepted(m: Market, m': Market, initial: real, os: seq<Order>) {
    forall k :: 0 <= k < |os| ==>
      (Verdict(m, Trading(m, Fresh(initial), os[..k]), os[k]).None?
       <==> Verdict(m', Trading(m', Fresh(initial), os[..k]), os[k]).None?)
  }

  /** The same history and the same position, but for the margin. */
  predicate Alike(a: Account, b: Account) {
    && a.closed == b.closed
    && a.position.Some? == b.position.Some?
    && (a.position.Some? ==> a.position.value == b.position.value.(margin := a.position.value.margin))
  }

  lemma OrderKeepsAlike(m: Market, m': Market, a: Account, b: Account, o: Order)
    requires Alike(a, b) && (Verdict(m, a, o).None? <==> Verdict(m', b, o).None?)
    ensures Alike(Placed(m, a, o), Placed(m', b, o))
  {
    hide Verdict, Times, FillPrice, Fee, Margin;
  }

  lemma {:induction false} MarketsTradeAlike(m: Market, m': Market, initial: real, os: seq<Order>)
    requires SameAccepted(m, m', initial, os)
    ensures Alike(Trading(m, Fresh(initial), os), Trading(m', Fresh(initial), os))
    decreases |os|
  {
    hide Verdict, Placed;
    if os != [] {
      var before := os[..|os| - 1];
      Prefixes(os);
      MarketsTradeAlike(m, m', initial, before);
      OrderKeepsAlike(m, m', Trading(m, Fresh(initial), before), Trading(m', Fresh(initial), before), os[|os| - 1]);
    }
  }

  lemma AlikeLedgers(initial: real, a: Account, b: Account, px: real)
    requires Alike(a, b)
    ensures a.closed == b.closed && Ledger(initial, a, px) == Ledger(initial, b, px)
  {
    hide Times;
  }

  /** Two markets, at any leverage, that accept the same orders close the same trades, and their equities
      differ at every price by nothing but what leaks. */
  lemma MarketsAgree(m: Market, m': Market, initial: real, os: seq<Order>, px: real)
    requires SameAccepted(m, m', initial, os)
    ensures var a, b := Trading(m, Fresh(initial), os), Trading(m', Fresh(initial), os);
            && a.closed == b.closed
            && Mark(m, a, px) - Leaks(m, Fresh(initial), os) == Mark(m', b, px) - Leaks(m', Fresh(initial), os)
            && (Matched(m, Fresh(initial), os) && Matched(m', Fresh(initial), os) ==> Mark(m, a, px) == Mark(m', b, px))
  {
    hide *;
    MarketsTradeAlike(m, m', initial, os);
    AlikeLedgers(initial, Trading(m, Fresh(initial), os), Trading(m', Fresh(initial), os), px);
    LedgerIdentity(m, initial, os, px);
    LedgerIdentity(m', initial, os, px);
    if Matched(m, Fresh(initial), os) && Matched(m', Fresh(initial), os) {
      MatchedRunsDoNotLeak(m, Fresh(initial), os);
      MatchedRunsDoNotLeak(m', Fresh(initial), os);
    }
  }

  // ---------------------------------------------------------------------------
  // The largest order
  // ---------------------------------------------------------------------------

  /** `max_order_qty_base`. */
  function MaxOrderQty(m: Market, takerFeeBps: nat, cash: real, price: real): real {
    if price <= 0.0 then 0.0
    else
      var rate := takerFeeBps as real / 10000.0;
      if m.futures then
        var unitCost := 1.0 / Leverage(m) + rate;
        if unitCost <= 0.0 then 0.0 else cash / unitCost / price
      else
        var denom := price * (1.0 + rate);
        if denom <= 0.0 then 0.0 else cash / denom
  }

  /** Cash needed per unit of notional. */
  function UnitCost(m: Market, feeBps: nat): (r: real)
    ensures r > 0.0
  {
    var rate := feeBps as real / 10000.0;
    if m.futures then
      var lev := Leverage(m);
      assert 1.0 / lev > 0.0;
      1.0 / lev + rate
    else 1.0 + rate
  }

  lemma CostPerNotional(m: Market, o: Order)
    ensures OpenCost(m, o) == Times(UnitCost(m, o.feeBps), Notional(o))
  {
  }

  lemma MaxIsCashOverCost(m: Market, takerFeeBps: nat, cash: real, price: real)
    requires price > 0.0
    ensures Times(UnitCost(m, takerFeeBps), Times(MaxOrderQty(m, takerFeeBps, cash, price), price)) == cash
  {
  }

  /** An opening order is accepted exactly when it sells short on spot, which costs no cash, or its notional at the
      fill price stays within the maximum quantity at the quoted price; without slippage the latter is exactly
      `qty <= max_order_qty_base`. */
  lemma MaxOrderQtyIsExact(m: Market, a: Account, o: Order)
    requires a.position.None? && o.qty > 0.0 && o.price > 0.0
    ensures var spotShort, most := !m.futures && o.side == Sell, MaxOrderQty(m, o.feeBps, a.cash, o.price);
            && (Verdict(m, a, o).None? <==> spotShort || Notional(o) <= Times(most, o.price))
            && (o.slipBps == 0 ==> (Verdict(m, a, o).None? <==> spotShort || o.qty <= most))
  {
    var most := MaxOrderQty(m, o.feeBps, a.cash, o.price);
    hide Times, MaxOrderQty, UnitCost, Notional;
    CostPerNotional(m, o);
    MaxIsCashOverCost(m, o.feeBps, a.cash, o.price);
    TimesLess(UnitCost(m, o.feeBps), Times(most, o.price), Notional(o));
    if o.slipBps == 0 {
      NotionalWithoutSlip(o);
      Spread(0.0, most, o.price);
      Spread(0.0, o.qty, o.price);
      Spread(most, 0.0, o.price);
      TimesLess(o.price, most, o.qty);
    }
  }

  lemma NotionalWithoutSlip(o: Order)
    requires o.slipBps == 0
    ensures Notional(o) == Times(o.price, o.qty)
  {
    TimesUnits(o.price);
  }

  // ---------------------------------------------------------------------------
  // Solvency on spot
  // ---------------------------------------------------------------------------

  /** A non-negative price, and fees and slippage of at most the whole price. */
  predicate Sane(o: Order) { o.price >= 0.0 && o.slipBps <= 10000 && o.feeBps <= 10000 }

  lemma AtMostWhole(x: real, bps: nat)
    requires x >= 0.0 && bps <= 10000
    ensures 0.0 <= Times(x, bps as real) / 10000.0 <= x
  {
    TimesMono(x, 0.0, bps as real);
    TimesMono(x, bps as real, 10000.0);
  }

  lemma FeeWithinNotional(o: Order)
    requires Sane(o) && o.qty > 0.0
    ensures 0.0 <= Fee(o) <= Notional(o)
  {
    hide Times;
    AtMostWhole(o.price, o.slipBps);
    TimesMono(o.qty, 0.0, FillPrice(o));
    Spread(FillPrice(o), 0.0, o.qty);
    TimesUnits(o.qty);
    AtMostWhole(Notional(o), o.feeBps);
  }

  lemma {:induction false} SpotNeverOverdraws(m: Market, initial: real, os: seq<Order>)
    requires !m.futures && initial >= 0.0 && forall o :: o in os ==> Sane(o)
    ensures Trading(m, Fresh(initial), os).cash >= 0.0
    decreases |os|
  {
    if os != [] {
      var o := os[|os| - 1];
      assert o in os;
      hide Fee, Notional;
      SpotNeverOverdraws(m, initial, os[..|os| - 1]);
      if o.qty > 0.0 {
        FeeWithinNotional(o);
      }
    }
  }

  // ---------------------------------------------------------------------------
  // The engine
  // ---------------------------------------------------------------------------

  lemma HistoryOnlyGrows(m: Market, a: Account, history: seq<Trade>, o: Order)
    ensures Placed(m, a.(closed := history + a.closed), o) == Placed(m, a, o).(closed := history + Placed(m, a, o).closed)
  {
    hide Times, FillPrice, Fee, Margin;
    if Closes(m, a, o) {
      assert history + (a.closed + [TradeOf(a.position.value, o)]) == (history + a.closed) + [TradeOf(a.position.value, o)];
    }
  }

  class BacktestContext {
    const market: Market
    var cash: real
    var position: Option<Position>
    var closedTrades: seq<Trade>

    ghost function State(): Account
      reads this
    {
      Account(cash, position, closedTrades)
    }

    constructor (market: Market, cash: real)
      ensures this.market == market && State() == Fresh(cash)
    {
      this.market, this.cash, position, closedTrades := market, cash, None, [];
    }

    method TakeClosedTrades() returns (trades: seq<Trade>)
      modifies this`closedTrades
      ensures trades == old(closedTrades) && closedTrades == []
    {
      trades, closedTrades := closedTrades, [];
    }

    method MarketOrder(o: Order) returns (refusal: Option<Refusal>)
      modifies this
      ensures refusal == Verdict(market, old(State()), o)
      ensures State() == Placed(market, old(State()), o)
    {
      if o.qty <= 0.0 {
        return Some(InvalidQty);
      }
      var fillPx, notional, fee := FillPrice(o), Notional(o), Fee(o);
      if o.side == Buy {
        if position.None? {
          if market.futures {
            var margin := notional / Leverage(market);
            if cash < margin + fee {
              return Some(InsufficientCash);
            }
            cash := cash - (margin + fee);
            position := Some(Position(Buy, o.qty, fillPx, o.ts, fee, margin));
            return None;
          }
          var cost := notional + fee;
          if cash < cost {
            return Some(InsufficientCash);
          }
          cash := cash - cost;
          position := Some(Position(Buy, o.qty, fillPx, o.ts, fee, 0.0));
          return None;
        }
        var pos := position.value;
        if pos.side == Buy {
          return Some(InvalidOrderForPosition);
        }
        position := None;
        if market.futures {
          cash := cash + (pos.margin + Times(pos.entryPx - fillPx, o.qty) - fee);
        } else {
          var cost := notional + fee;
          if cash < cost {
            position := Some(pos);
            return Some(InsufficientCash);
          }
          cash := cash - cost;
        }
        var totalFee := pos.entryFee + fee;
        var pnl := Times(pos.entryPx - fillPx, o.qty) - totalFee;
        closedTrades := closedTrades + [Trade(pos.entryTs, o.ts, Sell, o.qty, pos.entryPx, fillPx, pnl, totalFee)];
        return None;
      }
      if position.Some? {
        var pos := position.value;
        if pos.side != Buy {
          return Some(InvalidOrderForPosition);
        }
        position := None;
        if market.futures {
          cash := cash + (pos.margin + Times(fillPx - pos.entryPx, o.qty) - fee);
        } else {
          cash := cash + (notional - fee);
        }
        var totalFee := pos.entryFee + fee;
        var pnl := Times(fillPx - pos.entryPx, o.qty) - totalFee;
        closedTrades := closedTrades + [Trade(pos.entryTs, o.ts, pos.side, o.qty, pos.entryPx, fillPx, pnl, totalFee)];
        return None;
      }
      if market.futures {
        var margin := notional / Leverage(market);
        if cash < margin + fee {
          return Some(InsufficientCash);
        }
        cash := cash - (margin + fee);
        position := Some(Position(Sell, o.qty, fillPx, o.ts, fee, margin));
        return None;
      }
      cash := cash + (notional - fee);
      position := Some(Position(Sell, o.qty, fillPx, o.ts, fee, 0.0));
      return None;
    }
  }

  /** `effective_leverage`: futures leverage is kept within 1 and 125, spot has none. */
  function MarketOf(futures: bool, maxLeverage: real): (m: Market)
    ensures 1.0 <= m.leverage <= 125.0 && Leverage(m) == m.leverage
    ensures m.futures == futures && (futures && 1.0 <= maxLeverage <= 125.0 ==> m.leverage == maxLeverage)
    ensures !futures || maxLeverage < 1.0 ==> m.leverage == 1.0
    ensures futures && maxLeverage > 125.0 ==> m.leverage == 125.0
  {
    var lev := if maxLeverage > 1.0 then maxLeverage else 1.0;
    Market(futures, if !futures then 1.0 else if lev < 125.0 then lev else 125.0)
  }

  function Flatten(oss: seq<seq<Order>>): seq<Order> {
    if oss == [] then [] else Flatten(oss[..|oss| - 1]) + oss[|oss| - 1]
  }

  /** Marked equity at the close of bar `i`, from the account history alone. */
  function EquityAt(m: Market, initial: real, bars: seq<Bar>, orders: seq<seq<Order>>, i: nat): EquityPoint
    requires |orders| == |bars| && i < |bars|
  {
    EquityPoint(bars[i].ts, Mark(m, Trading(m, Fresh(initial), Flatten(orders[..i + 1])), bars[i].close))
  }

  method Run(futures: bool, maxLeverage: real, initial: real, bars: seq<Bar>, orders: seq<seq<Order>>)
    returns (curve: seq<EquityPoint>, trades: seq<Trade>)
    requires |orders| == |bars|
    ensures |curve| == |bars|
    ensures forall i :: 0 <= i < |bars| ==> curve[i] == EquityAt(MarketOf(futures, maxLeverage), initial, bars, orders, i)
    ensures trades == Trading(MarketOf(futures, maxLeverage), Fresh(initial), Flatten(orders)).closed
    ensures var m, os := MarketOf(futures, maxLeverage), Flatten(orders);
            |bars| > 0 && Matched(m, Fresh(initial), os) && Trading(m, Fresh(initial), os).position.None?
            ==> curve[|bars| - 1].equity == initial + SumPnl(trades)
  {
    hide Mark, Placed, Verdict;
    var m := MarketOf(futures, maxLeverage);
    var ctx := new BacktestContext(m, initial);
    curve, trades := [], [];
    for i := 0 to |bars|
      invariant ctx.market == m && ctx.closedTrades == [] && |curve| == i
      invariant Trading(m, Fresh(initial), Flatten(orders[..i])) == ctx.State().(closed := trades)
      invariant forall k :: 0 <= k < i ==> curve[k] == EquityAt(m, initial, bars, orders, k)
    {
      var before := Flatten(orders[..i]);
      assert before + orders[i][..0] == before && trades + ctx.closedTrades == trades;
      for j := 0 to |orders[i]|
        invariant ctx.market == m
        invariant Trading(m, Fresh(initial), before + orders[i][..j]) == ctx.State().(closed := trades + ctx.closedTrades)
      {
        assert before + orders[i][..j + 1] == (before + orders[i][..j]) + [orders[i][j]];
        HistoryOnlyGrows(m, ctx.State(), trades, orders[i][j]);
        var _ := ctx.MarketOrder(orders[i][j]);
      }
      assert orders[i][..|orders[i]|] == orders[i];
      assert orders[..i + 1][..i] == orders[..i];
      assert Flatten(orders[..i + 1]) == before + orders[i];
      var taken := ctx.TakeClosedTrades();
      trades := trades + taken;
      MarkIgnoresHistory(m, ctx.State(), trades, bars[i].close);
      curve := curve + [EquityPoint(bars[i].ts, Mark(m, Account(ctx.cash, ctx.position, ctx.closedTrades), bars[i].close))];
    }
    var rest := ctx.TakeClosedTrades();
    trades := trades + rest;
    assert orders[..|bars|] == orders;
    if |bars| > 0 && Matched(m, Fresh(initial), Flatten(orders)) {
      MatchedRunsDoNotLeak(m, Fresh(initial), Flatten(orders));
      LedgerIdentity(m, initial, Flatten(orders), bars[|bars| - 1].close);
    }
  }

  lemma MarkIgnoresHistory(m: Market, a: Account, history: seq<Trade>, px: real)
    ensures Mark(m, a.(closed := history), px) == Mark(m, a, px)
  {
  }
}
