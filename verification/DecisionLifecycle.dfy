/**
 Lifecycle of AI decisions: the `ai_decisions` parents, their child rows and the
 steps that move them.  Every committed SQL statement or transaction is one step;
 `mark_applied` and `mark_tactical_execution_failed` are two separate statements in
 the source and therefore two steps here, with a visible state in between.
 */
module DecisionLifecycle {
  import opened Options

  type Id = nat
  type Time = int

  datatype Status =
    | Pending | Active | Approved | Applied | Rejected | Expired | Error | ExecutionFailed

  datatype Layer = Tactical | Operational | Strategic

  /** The three child tables (`AiRecordTable`). */
  datatype Table = TacticalChild | PositionDirectiveChild | PortfolioDirectiveChild

  datatype Decision = Decision(layer: Layer, symbol: string, status: Status, expiresAt: Option<Time>)

  datatype Child = Child(decision: Id, table: Table, status: Status, validUntil: Option<Time>, createdAt: Time)

  /** A tactical sweep task for one symbol: it has passed the block check, and has then inserted its parent row. */
  datatype Sweep = Checked | Opened(decision: Id, validUntil: Time)

  /** A child whose first update is committed while the parent update is still to come. */
  datatype Half = MidApply | MidFail

  datatype State = State(
    now: Time,
    decisions: map<Id, Decision>,
    children: map<Id, Child>,
    outcomes: set<Id>,
    sweeps: map<string, Sweep>,
    halves: map<Id, Half>)

  const INIT := State(0, map[], map[], {}, map[], map[])

  const DIRECTIVE_WINDOW: Time := 600 // the ten minutes of `fetch_latest_approved_directive`

  function TableOf(layer: Layer): Table {
    match layer
    case Tactical => TacticalChild
    case Operational => PositionDirectiveChild
    case Strategic => PortfolioDirectiveChild
  }

  // ---------------------------------------------------------------------------
  // Queries
  // ---------------------------------------------------------------------------

  predicate After(t: Option<Time>, now: Time) { t.Some? && t.value > now }

  /** The WHERE clause of `tactical_symbol_blocked_by_active_decision`, for the row pair of child `c`. */
  predicate Blocks(s: State, c: Id) {
    c in s.children &&
    var t := s.children[c];
    t.decision in s.decisions &&
    var d := s.decisions[t.decision];
    && t.table == TacticalChild && d.layer == Tactical
    && t.status !in {Rejected, Expired, ExecutionFailed}
    && d.status !in {Rejected, Expired, Error}
    && t.decision !in s.outcomes
    && (|| (d.status == Pending && (d.expiresAt == None || d.expiresAt.value > s.now))
        || (d.status == Approved && t.status == Approved && After(t.validUntil, s.now))
        || (d.status == Applied && t.status == Applied))
  }

  predicate BlocksSymbol(s: State, c: Id, symbol: string) {
    Blocks(s, c) && s.decisions[s.children[c].decision].symbol == symbol
  }

  predicate Blocked(s: State, symbol: string) {
    exists c :: c in s.children && BlocksSymbol(s, c, symbol)
  }

  /** `fetch_latest_approved_*` can return child `c`: it is approved and still usable. */
  predicate Eligible(s: State, c: Id) {
    c in s.children &&
    var t := s.children[c];
    match t.table
    case TacticalChild => t.status == Approved && After(t.validUntil, s.now)
    case PositionDirectiveChild => t.status == Approved && t.createdAt > s.now - DIRECTIVE_WINDOW
    case PortfolioDirectiveChild => ActiveDirective(s, c)
  }

  /** `fetch_active_portfolio_directive` can return portfolio child `c`. */
  predicate ActiveDirective(s: State, c: Id) {
    c in s.children &&
    var p := s.children[c];
    && p.table == PortfolioDirectiveChild
    && p.decision in s.decisions
    && p.status in {Active, Approved}
    && s.decisions[p.decision].status in {Approved, Applied}
  }

  // ---------------------------------------------------------------------------
  // Updates
  // ---------------------------------------------------------------------------

  /** Which child rows the approve, reject and expire transactions touch: pending ones, and in the
      portfolio table also legacy `active` ones and (reject, expire) already approved ones. */
  predicate ChildMoves(t: Child, to: Status) {
    || t.status == Pending
    || (t.table == PortfolioDirectiveChild && (t.status == Active || (to != Approved && t.status == Approved)))
  }

  function PendingAmong(decisions: map<Id, Decision>, ids: set<Id>): set<Id> {
    set d | d in ids && d in decisions && decisions[d].status == Pending
  }

  function MoveParents(decisions: map<Id, Decision>, ids: set<Id>, to: Status): map<Id, Decision> {
    map d | d in decisions :: if d in ids then decisions[d].(status := to) else decisions[d]
  }

  function MoveChildren(children: map<Id, Child>, parents: set<Id>, to: Status): map<Id, Child> {
    map c | c in children ::
      if children[c].decision in parents && ChildMoves(children[c], to) then children[c].(status := to)
      else children[c]
  }

  /** One approving or rejecting transaction on decision `id`. */
  function Decide(s: State, id: Id, to: Status): State {
    s.(decisions := MoveParents(s.decisions, PendingAmong(s.decisions, {id}), to),
       children := MoveChildren(s.children, {id}, to))
  }

  function Stale(s: State): set<Id> {
    set d | d in s.decisions && s.decisions[d].status == Pending
            && s.decisions[d].expiresAt.Some? && s.decisions[d].expiresAt.value < s.now
  }

  function ExpireStale(s: State): State {
    s.(decisions := MoveParents(s.decisions, Stale(s), Expired),
       children := MoveChildren(s.children, Stale(s), Expired))
  }

  function SetChild(s: State, c: Id, to: Status): map<Id, Child>
    requires c in s.children
  {
    s.children[c := s.children[c].(status := to)]
  }

  function SetParentOf(s: State, c: Id, to: Status): map<Id, Decision>
    requires c in s.children
  {
    MoveParents(s.decisions, {s.children[c].decision}, to)
  }

  // ---------------------------------------------------------------------------
  // Steps
  // ---------------------------------------------------------------------------

  datatype Step =
    | Tick(at: Time)
    | BeginSweep(symbol: string)
    | OpenDecision(symbol: string, id: Id, issuedAt: Time, ttl: nat)
    | AttachTactical(symbol: string, child: Id)
    | AbandonSweep(symbol: string)
    | InsertDecision(id: Id, layer: Layer, symbol: string, ttl: nat)
    | InsertDirective(child: Id, id: Id, validUntil: Option<Time>)
    | InsertError(id: Id, layer: Layer, symbol: string)
    | Approve(id: Id)
    | Reject(id: Id)
    | Expire
    | ApplyChild(child: Id)
    | ApplyParent(child: Id)
    | FailChild(child: Id)
    | FailParent(child: Id)
    | RecordOutcome(id: Id)

  predicate Childless(s: State, id: Id) {
    forall c :: c in s.children ==> s.children[c].decision != id
  }

  predicate Enabled(s: State, step: Step) {
    match step
    case Tick(at) => s.now <= at
    case BeginSweep(symbol) => symbol !in s.sweeps && !Blocked(s, symbol)
    case OpenDecision(symbol, id, issuedAt, ttl) =>
      && symbol in s.sweeps && s.sweeps[symbol] == Checked
      && id !in s.decisions && id !in s.outcomes && issuedAt <= s.now
    case AttachTactical(symbol, child) =>
      && symbol in s.sweeps && s.sweeps[symbol].Opened? && child !in s.children
      && s.sweeps[symbol].decision in s.decisions
      && s.decisions[s.sweeps[symbol].decision].status == Pending
    case AbandonSweep(symbol) => symbol in s.sweeps
    case InsertDecision(id, layer, symbol, ttl) =>
      layer != Tactical && id !in s.decisions && id !in s.outcomes
    case InsertDirective(child, id, validUntil) =>
      && child !in s.children && id in s.decisions && Childless(s, id)
      && s.decisions[id].layer != Tactical && s.decisions[id].status == Pending
    case InsertError(id, layer, symbol) => id !in s.decisions && id !in s.outcomes
    case Approve(id) => true
    case Reject(id) => true
    case Expire => true
    case ApplyChild(child) => child !in s.halves && Eligible(s, child)
    case ApplyParent(child) => child in s.children && child in s.halves && s.halves[child] == MidApply
    case FailChild(child) =>
      child !in s.halves && Eligible(s, child) && s.children[child].table == TacticalChild
    case FailParent(child) => child in s.children && child in s.halves && s.halves[child] == MidFail
    case RecordOutcome(id) => id in s.decisions
  }

  function Next(s: State, step: Step): State
    requires Enabled(s, step)
  {
    match step
    case Tick(at) => s.(now := at)
    case BeginSweep(symbol) => s.(sweeps := s.sweeps[symbol := Checked])
    case OpenDecision(symbol, id, issuedAt, ttl) =>
      s.(decisions := s.decisions[id := Decision(Tactical, symbol, Pending, Some(s.now + ttl))],
         sweeps := s.sweeps[symbol := Opened(id, issuedAt + ttl)])
    case AttachTactical(symbol, child) =>
      var sw := s.sweeps[symbol];
      s.(children := s.children[child := Child(sw.decision, TacticalChild, Pending, Some(sw.validUntil), s.now)],
         sweeps := s.sweeps - {symbol})
    case AbandonSweep(symbol) => s.(sweeps := s.sweeps - {symbol})
    case InsertDecision(id, layer, symbol, ttl) =>
      s.(decisions := s.decisions[id := Decision(layer, symbol, Pending, Some(s.now + ttl))])
    case InsertDirective(child, id, validUntil) =>
      s.(children := s.children[child := Child(id, TableOf(s.decisions[id].layer), Pending, validUntil, s.now)])
    case InsertError(id, layer, symbol) =>
      s.(decisions := s.decisions[id := Decision(layer, symbol, Error, None)])
    case Approve(id) => Decide(s, id, Approved)
    case Reject(id) => Decide(s, id, Rejected)
    case Expire => ExpireStale(s)
    case ApplyChild(child) => s.(children := SetChild(s, child, Applied), halves := s.halves[child := MidApply])
    case ApplyParent(child) => s.(decisions := SetParentOf(s, child, Applied), halves := s.halves - {child})
    case FailChild(child) => s.(children := SetChild(s, child, ExecutionFailed), halves := s.halves[child := MidFail])
    case FailParent(child) => s.(decisions := SetParentOf(s, child, Error), halves := s.halves - {child})
    case RecordOutcome(id) => s.(outcomes := s.outcomes + {id})
  }

  predicate Legal(s: State, steps: seq<Step>)
    decreases |steps|
  {
    steps == [] || (Enabled(s, steps[0]) && Legal(Next(s, steps[0]), steps[1..]))
  }

  function Final(s: State, steps: seq<Step>): State
    requires Legal(s, steps)
    decreases |steps|
  {
    if steps == [] then s else Final(Next(s, steps[0]), steps[1..])
  }

  ghost predicate Reachable(s: State) {
    exists steps :: Legal(INIT, steps) && Final(INIT, steps) == s
  }

  lemma One(s: State, step: Step)
    requires Enabled(s, step)
    ensures Legal(s, [step]) && Final(s, [step]) == Next(s, step)
  {
    var s' := Next(s, step);
    assert Legal(s', []) && Final(s', []) == s';
  }

  lemma {:induction false} Append(s: State, a: seq<Step>, b: seq<Step>)
    requires Legal(s, a) && Legal(Final(s, a), b)
    ensures Legal(s, a + b) && Final(s, a + b) == Final(Final(s, a), b)
    decreases |a|
  {
    if a == [] {
      assert a + b == b;
    } else {
      Append(Next(s, a[0]), a[1..], b);
      assert (a + b)[1..] == a[1..] + b;
    }
  }

  lemma ReachOn(s: State, steps: seq<Step>)
    requires Reachable(s) && Legal(s, steps)
    ensures Reachable(Final(s, steps))
  {
    var before :| Legal(INIT, before) && Final(INIT, before) == s;
    Append(INIT, before, steps);
  }

  lemma ReachStep(s: State, step: Step)
    requires Reachable(s) && Enabled(s, step)
    ensures Reachable(Next(s, step))
  {
    One(s, step);
    ReachOn(s, [step]);
  }

  lemma ReachInit()
    ensures Reachable(INIT)
  {
    assert Legal(INIT, []) && Final(INIT, []) == INIT;
  }

  // ---------------------------------------------------------------------------
  // Parity of parent and child
  // ---------------------------------------------------------------------------

  predicate RowsAgree(table: Table, d: Status, c: Status) {
    || (d == c && d in {Pending, Approved, Applied, Rejected, Expired})
    || (d == Error && c == ExecutionFailed && table == TacticalChild)
  }

  predicate SettledPair(table: Table, d: Status, c: Status) {
    RowsAgree(table, d, c) || (table == PortfolioDirectiveChild && d == Approved && c == Rejected)
  }

  /** Parent and child agree, or are exactly between the two updates of apply or fail. */
  predicate PairAgrees(s: State, c: Id)
    requires c in s.children && s.children[c].decision in s.decisions
  {
    var t := s.children[c];
    var d := s.decisions[t.decision].status;
    if c in s.halves then
      match s.halves[c]
      case MidApply => d == Approved && t.status == Applied
      case MidFail => d == Approved && t.status == ExecutionFailed && t.table == TacticalChild
    else SettledPair(t.table, d, t.status)
  }

  predicate ChildOk(s: State, c: Id)
    requires c in s.children
  {
    var t := s.children[c];
    && t.decision in s.decisions
    && t.table == TableOf(s.decisions[t.decision].layer)
    && PairAgrees(s, c)
    && (t.table == TacticalChild ==>
          && t.validUntil.Some? && s.decisions[t.decision].expiresAt.Some?
          && t.validUntil.value <= s.decisions[t.decision].expiresAt.value)
  }

  predicate SweepOk(s: State, symbol: string)
    requires symbol in s.sweeps
  {
    s.sweeps[symbol].Opened? ==>
      var id := s.sweeps[symbol].decision;
      && id in s.decisions && Childless(s, id)
      && s.decisions[id].layer == Tactical && s.decisions[id].symbol == symbol
      && s.decisions[id].expiresAt.Some?
      && s.sweeps[symbol].validUntil <= s.decisions[id].expiresAt.value
  }

  predicate WellFormed(s: State) {
    && (forall c :: c in s.children ==> ChildOk(s, c))
    && (forall c, c' :: c in s.children && c' in s.children && s.children[c].decision == s.children[c'].decision ==> c == c')
    && (forall c :: c in s.halves ==> c in s.children)
    && (forall symbol :: symbol in s.sweeps ==> SweepOk(s, symbol))
    && (forall id :: id in s.outcomes ==> id in s.decisions)
  }

  lemma ApprovalKeepsChild(s: State, id: Id, c: Id)
    requires WellFormed(s) && c in s.children
    ensures ChildOk(Next(s, Approve(id)), c)
  {
    hide SweepOk;
    assert ChildOk(s, c);
  }

  lemma RejectionKeepsChild(s: State, id: Id, c: Id)
    requires WellFormed(s) && c in s.children
    ensures ChildOk(Next(s, Reject(id)), c)
  {
    hide SweepOk;
    assert ChildOk(s, c);
  }

  lemma ExpiryKeepsChild(s: State, c: Id)
    requires WellFormed(s) && c in s.children
    ensures ChildOk(Next(s, Expire), c)
  {
    assert ChildOk(s, c);
  }

  lemma WaitingKeepsChild(s: State, step: Step, c: Id)
    requires WellFormed(s) && Enabled(s, step) && c in s.children
    requires step.Tick? || step.BeginSweep? || step.AbandonSweep? || step.RecordOutcome?
    ensures ChildOk(Next(s, step), c)
  {
    assert ChildOk(s, c);
  }

  lemma FirstUpdateKeepsChild(s: State, step: Step, c: Id)
    requires WellFormed(s) && Enabled(s, step) && c in s.children
    requires step.ApplyChild? || step.FailChild?
    ensures ChildOk(Next(s, step), c)
  {
    assert ChildOk(s, c);
    assert ChildOk(s, step.child);
  }

  lemma SecondUpdateKeepsChild(s: State, step: Step, c: Id)
    requires WellFormed(s) && Enabled(s, step) && c in s.children
    requires step.ApplyParent? || step.FailParent?
    ensures ChildOk(Next(s, step), c)
  {
    assert ChildOk(s, c);
    assert ChildOk(s, step.child);
  }

  predicate Inserts(step: Step) {
    step.OpenDecision? || step.AttachTactical? || step.InsertDecision? || step.InsertDirective? || step.InsertError?
  }

  lemma InsertKeepsChild(s: State, step: Step, c: Id)
    requires WellFormed(s) && Enabled(s, step) && c in Next(s, step).children
    requires Inserts(step)
    ensures ChildOk(Next(s, step), c)
  {
    if c in s.children {
      assert ChildOk(s, c);
    }
    if step.AttachTactical? {
      assert SweepOk(s, step.symbol);
    }
  }

  lemma StepKeepsChild(s: State, step: Step, c: Id)
    requires WellFormed(s) && Enabled(s, step) && c in Next(s, step).children
    ensures ChildOk(Next(s, step), c)
  {
    if step.Approve? {
      ApprovalKeepsChild(s, step.id, c);
    } else if step.Reject? {
      RejectionKeepsChild(s, step.id, c);
    } else if step.Expire? {
      ExpiryKeepsChild(s, c);
    } else if step.ApplyChild? || step.FailChild? {
      FirstUpdateKeepsChild(s, step, c);
    } else if step.ApplyParent? || step.FailParent? {
      SecondUpdateKeepsChild(s, step, c);
    } else if step.Tick? || step.BeginSweep? || step.AbandonSweep? || step.RecordOutcome? {
      WaitingKeepsChild(s, step, c);
    } else {
      InsertKeepsChild(s, step, c);
    }
  }

  lemma InsertKeepsSweep(s: State, step: Step, symbol: string)
    requires WellFormed(s) && Enabled(s, step) && symbol in Next(s, step).sweeps && Inserts(step)
    ensures SweepOk(Next(s, step), symbol)
  {
    hide PairAgrees;
    if symbol in s.sweeps {
      assert SweepOk(s, symbol);
    }
    if step.AttachTactical? {
      assert SweepOk(s, step.symbol);
    }
  }

  lemma UpdateKeepsSweep(s: State, step: Step, symbol: string)
    requires WellFormed(s) && Enabled(s, step) && symbol in Next(s, step).sweeps && !Inserts(step)
    ensures SweepOk(Next(s, step), symbol)
  {
    hide ChildOk, Blocked, ActiveDirective, ChildMoves, PendingAmong;
    if symbol in s.sweeps {
      assert SweepOk(s, symbol);
    }
  }

  lemma StepKeepsSweep(s: State, step: Step, symbol: string)
    requires WellFormed(s) && Enabled(s, step) && symbol in Next(s, step).sweeps
    ensures SweepOk(Next(s, step), symbol)
  {
    hide *;
    if Inserts(step) {
      InsertKeepsSweep(s, step, symbol);
    } else {
      UpdateKeepsSweep(s, step, symbol);
    }
  }

  lemma InsertKeepsOneChild(s: State, step: Step, c: Id, c': Id)
    requires WellFormed(s) && Enabled(s, step) && Inserts(step)
    requires c in Next(s, step).children && c' in Next(s, step).children
    requires Next(s, step).children[c].decision == Next(s, step).children[c'].decision
    ensures c == c'
  {
    hide PairAgrees, Blocked;
    if step.AttachTactical? {
      assert SweepOk(s, step.symbol);
    }
  }

  lemma UpdateKeepsOneChild(s: State, step: Step, c: Id, c': Id)
    requires WellFormed(s) && Enabled(s, step) && !Inserts(step)
    requires c in Next(s, step).children && c' in Next(s, step).children
    requires Next(s, step).children[c].decision == Next(s, step).children[c'].decision
    ensures c == c'
  {
    hide ChildOk, SweepOk, Blocked, ActiveDirective, ChildMoves, Stale;
  }

  lemma StepKeepsOneChild(s: State, step: Step, c: Id, c': Id)
    requires WellFormed(s) && Enabled(s, step)
    requires c in Next(s, step).children && c' in Next(s, step).children
    requires Next(s, step).children[c].decision == Next(s, step).children[c'].decision
    ensures c == c'
  {
    hide *;
    if Inserts(step) {
      InsertKeepsOneChild(s, step, c, c');
    } else {
      UpdateKeepsOneChild(s, step, c, c');
    }
  }

  /** Every step keeps the parity invariant. */
  lemma StepKeepsParity(s: State, step: Step)
    requires WellFormed(s) && Enabled(s, step)
    ensures WellFormed(Next(s, step))
  {
    hide ChildOk, SweepOk, Stale, Eligible, Blocked;
    var s' := Next(s, step);
    forall c | c in s'.children ensures ChildOk(s', c) {
      StepKeepsChild(s, step, c);
    }
    forall symbol | symbol in s'.sweeps ensures SweepOk(s', symbol) {
      StepKeepsSweep(s, step, symbol);
    }
    forall c, c' | c in s'.children && c' in s'.children && s'.children[c].decision == s'.children[c'].decision
      ensures c == c'
    {
      StepKeepsOneChild(s, step, c, c');
    }
    assert s.children.Keys <= s'.children.Keys && s.decisions.Keys <= s'.decisions.Keys;
  }

  /** Parent and child agree in every reachable state, whatever the interleaving. */
  lemma {:induction false} RunsKeepParity(s: State, steps: seq<Step>)
    requires WellFormed(s) && Legal(s, steps)
    ensures WellFormed(Final(s, steps))
    decreases |steps|
  {
    if steps != [] {
      StepKeepsParity(s, steps[0]);
      RunsKeepParity(Next(s, steps[0]), steps[1..]);
    }
  }

  lemma ReachableIsWellFormed(s: State)
    requires Reachable(s)
    ensures WellFormed(s)
  {
    var steps :| Legal(INIT, steps) && Final(INIT, steps) == s;
    RunsKeepParity(INIT, steps);
  }

  /** Status parity, spelled out for readers of the tables: outside the two-update windows a
      tactical or operational child always carries its parent's verdict, and a portfolio child can
      differ in one way only: rejected under an approved parent. */
  lemma StatusesAgree(s: State, c: Id)
    requires Reachable(s) && c in s.children && c !in s.halves
    ensures var t := s.children[c];
            t.decision in s.decisions &&
            var d := s.decisions[t.decision].status;
            if t.table == PortfolioDirectiveChild
            then RowsAgree(t.table, d, t.status) || (d == Approved && t.status == Rejected)
            else RowsAgree(t.table, d, t.status)
  {
    ReachableIsWellFormed(s);
    assert ChildOk(s, c);
  }

  /** Rows affected by an approving or rejecting transaction (`rows_affected` of its parent update). */
  function DecideRows(s: State, id: Id): nat { |PendingAmong(s.decisions, {id})| }

  /** Decision `id` has a portfolio directive that is still approved. */
  predicate HasApprovedDirective(s: State, id: Id) {
    exists c :: c in s.children && s.children[c].decision == id
      && s.children[c].table == PortfolioDirectiveChild && s.children[c].status == Approved
  }

  /** First decision wins: once a parent has left `pending_approval`, a later approve or reject reports
      0 rows, and it changes nothing, except exactly the reject of a decision whose directive is approved. */
  lemma LateVerdictIsNoOp(s: State, id: Id, to: Status)
    requires WellFormed(s)
    requires id in s.decisions && s.decisions[id].status != Pending
    requires to in {Approved, Rejected}
    ensures DecideRows(s, id) == 0
    ensures Decide(s, id, to) == s <==> !(to == Rejected && HasApprovedDirective(s, id))
  {
    hide SweepOk, PairAgrees;
    assert PendingAmong(s.decisions, {id}) == {};
    assert MoveParents(s.decisions, {}, to) == s.decisions;
    if to == Rejected && HasApprovedDirective(s, id) {
      var c :| c in s.children && s.children[c].decision == id
        && s.children[c].table == PortfolioDirectiveChild && s.children[c].status == Approved;
      assert MoveChildren(s.children, {id}, to)[c].status == Rejected;
    } else {
      forall c | c in s.children && s.children[c].decision == id ensures !ChildMoves(s.children[c], to) {
        DecidedChildStays(s, id, c, to);
      }
      assert MoveChildren(s.children, {id}, to) == s.children;
    }
  }

  lemma DecidedChildStays(s: State, id: Id, c: Id, to: Status)
    requires WellFormed(s) && id in s.decisions && s.decisions[id].status != Pending
    requires c in s.children && s.children[c].decision == id
    requires to == Approved || (to == Rejected && !HasApprovedDirective(s, id))
    ensures !ChildMoves(s.children[c], to)
  {
    assert ChildOk(s, c);
  }

  /** The first verdict does win: on a pending decision it reports one row and moves parent and child together. */
  lemma FirstVerdictMovesBoth(s: State, id: Id, c: Id, to: Status)
    requires WellFormed(s)
    requires c in s.children && s.children[c].decision == id
    requires s.decisions[id].status == Pending && to in {Approved, Rejected}
    ensures DecideRows(s, id) == 1
    ensures Decide(s, id, to) == s.(decisions := s.decisions[id := s.decisions[id].(status := to)],
                                    children := s.children[c := s.children[c].(status := to)])
  {
    assert PendingAmong(s.decisions, {id}) == {id};
    assert ChildOk(s, c);
  }

  /** The expiry sweep never touches a decided row or any of its children. */
  lemma ExpiryIgnoresDecided(s: State, id: Id)
    requires WellFormed(s) && id in s.decisions && s.decisions[id].status != Pending
    ensures ExpireStale(s).decisions[id] == s.decisions[id]
    ensures forall c :: c in s.children && s.children[c].decision == id ==> ExpireStale(s).children[c] == s.children[c]
  {
  }

  /** The sweep expires exactly the pending decisions whose expiry has passed, each together with its child, and
      touches nothing else. */
  lemma ExpiryTakesOverdue(s: State, id: Id)
    requires WellFormed(s) && id in s.decisions
    ensures var d, s' := s.decisions[id], Next(s, Expire);
            var overdue := d.status == Pending && d.expiresAt.Some? && d.expiresAt.value < s.now;
            && s'.decisions.Keys == s.decisions.Keys && s'.children.Keys == s.children.Keys
            && s' == s.(decisions := s'.decisions, children := s'.children)
            && s'.decisions[id] == (if overdue then d.(status := Expired) else d)
            && forall c :: c in s.children && s.children[c].decision == id ==>
                 s'.children[c] == if overdue then s.children[c].(status := Expired) else s.children[c]
  {
    hide SweepOk;
    forall c | c in s.children && s.children[c].decision == id ensures ChildOk(s, c) {
    }
  }

  /** The active-directive query returns exactly the directives that are approved together with their parent: never
      the (approved, rejected) pair, and never again one that was applied. */
  lemma ActiveDirectiveIsApprovedWithParent(s: State, c: Id)
    requires Reachable(s) && c in s.children
    ensures ActiveDirective(s, c) <==>
              && s.children[c].table == PortfolioDirectiveChild
              && s.children[c].status == Approved && s.children[c].decision in s.decisions
              && s.decisions[s.children[c].decision].status == Approved
  {
    ReachableIsWellFormed(s);
    assert ChildOk(s, c);
  }

  /** When an executor sees a child: never while it is pending; once approved, a tactical one before its `valid_until`,
      a position directive for the ten minutes behind its creation, and a portfolio directive always. */
  lemma EligibleOnceApproved(s: State, c: Id, at: Time)
    requires WellFormed(s) && c in s.children && s.children[c].status == Pending && s.now <= at
    ensures var t := s.children[c];
            && !Eligible(Next(s, Tick(at)), c)
            && (Eligible(Next(Next(s, Approve(t.decision)), Tick(at)), c) <==>
                  match t.table
                  case TacticalChild => at < t.validUntil.value
                  case PositionDirectiveChild => at < t.createdAt + 600
                  case PortfolioDirectiveChild => true)
  {
    hide SweepOk;
    assert ChildOk(s, c);
  }

  const PLAN := Decision(Strategic, "", Pending, Some(60))
  const DIRECTIVE := Child(1, PortfolioDirectiveChild, Pending, Some(60), 0)

  /** Strategic decision 1 with its portfolio directive 7, at the given statuses. */
  function Portfolio(d: Status, p: Status): State {
    State(0, map[1 := PLAN.(status := d)], map[7 := DIRECTIVE.(status := p)], {}, map[], map[])
  }

  lemma PortfolioMoves(step: Step, d: Status, p: Status, d': Status, p': Status)
    requires Reachable(Portfolio(d, p))
    requires step == Approve(1) || step == Reject(1)
    requires Next(Portfolio(d, p), step) == Portfolio(d', p')
    ensures Reachable(Portfolio(d', p'))
  {
    ReachStep(Portfolio(d, p), step);
  }

  lemma PortfolioOpens()
    ensures Reachable(Portfolio(Pending, Pending))
  {
    ReachInit();
    ReachStep(INIT, InsertDecision(1, Strategic, "", 60));
    var s1 := INIT.(decisions := map[1 := PLAN]);
    assert Next(INIT, InsertDecision(1, Strategic, "", 60)) == s1;
    ReachStep(s1, InsertDirective(7, 1, Some(60)));
    assert Next(s1, InsertDirective(7, 1, Some(60))) == Portfolio(Pending, Pending);
  }

  lemma PortfolioApproves()
    ensures Next(Portfolio(Pending, Pending), Approve(1)) == Portfolio(Approved, Approved)
  {
  }

  lemma PortfolioThenRejects()
    ensures Next(Portfolio(Approved, Approved), Reject(1)) == Portfolio(Approved, Rejected)
  {
  }

  /** The pair (approved, rejected) is really reachable for a portfolio directive. */
  lemma PortfolioRejectAfterApprove()
    ensures Reachable(Portfolio(Approved, Rejected))
  {
    PortfolioOpens();
    PortfolioApproves();
    PortfolioThenRejects();
    hide Next, Portfolio, Reachable;
    PortfolioMoves(Approve(1), Pending, Pending, Approved, Approved);
    PortfolioMoves(Reject(1), Approved, Approved, Approved, Rejected);
  }
}
