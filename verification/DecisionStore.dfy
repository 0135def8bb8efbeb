/**
 The mutable store behind the lifecycle: rows are updated in place by the methods of
 `storage.rs`, `approval.rs` and `client.rs`.  Every method is tied to the steps of
 DecisionLifecycle, whose run invariants therefore hold of every sequence of calls.
 */
module DecisionStore {
  import opened DecisionLifecycle
  import opened Options
  import DecisionSafety

  const F64_EPSILON := 0.0000000000000002220446049250313080847263336181640625

  predicate AutoApproveEligible(confidence: real, enabled: bool, threshold: real) {
    enabled && confidence + F64_EPSILON >= threshold
  }

  class Store {
    var now: Time
    var decisions: map<Id, Decision>
    var children: map<Id, Child>
    var outcomes: set<Id>
    ghost var sweeps: map<string, Sweep>
    ghost var halves: map<Id, Half>

    ghost function Snapshot(): State
      reads this
    {
      State(now, decisions, children, outcomes, sweeps, halves)
    }

    constructor ()
      ensures Snapshot() == INIT
    {
      now, decisions, children, outcomes := 0, map[], map[], {};
      sweeps, halves := map[], map[];
    }

    /** `UPDATE ai_decisions SET status = to WHERE id = ANY(ids) AND status = 'pending_approval'`, with its row count. */
    method UpdatePendingParents(ids: set<Id>, to: Status) returns (rows: nat)
      modifies this`decisions
      ensures decisions == MoveParents(old(decisions), PendingAmong(old(decisions), ids), to)
      ensures rows == |PendingAmong(old(decisions), ids)|
    {
      var hit := PendingAmong(decisions, ids);
      decisions := MoveParents(decisions, hit, to);
      rows := |hit|;
    }

    /** The three child updates of an approve, reject or expire transaction. */
    method UpdateChildren(parents: set<Id>, to: Status)
      modifies this`children
      ensures children == MoveChildren(old(children), parents, to)
    {
      children := MoveChildren(children, parents, to);
    }

    method AdminApprove(id: Id) returns (rows: nat)
      modifies this
      ensures Snapshot() == Next(old(Snapshot()), Approve(id))
      ensures rows == DecideRows(old(Snapshot()), id)
      ensures old(WellFormed(Snapshot())) && rows == 0 ==> Snapshot() == old(Snapshot())
    {
      ghost var s := Snapshot();
      rows := UpdatePendingParents({id}, Approved);
      UpdateChildren({id}, Approved);
      if WellFormed(s) && rows == 0 {
        ApproveWithoutRowIsNoOp(s, id);
      }
    }

    method AdminReject(id: Id) returns (rows: nat)
      modifies this
      ensures Snapshot() == Next(old(Snapshot()), Reject(id))
      ensures rows == DecideRows(old(Snapshot()), id)
    {
      rows := UpdatePendingParents({id}, Rejected);
      UpdateChildren({id}, Rejected);
    }

    method ExpireStaleDecisions() returns (rows: nat)
      modifies this
      ensures Snapshot() == Next(old(Snapshot()), Expire)
      ensures rows == |set d | d in decisions && old(decisions)[d].status == Pending && decisions[d].status == Expired|
    {
      var ids := set d | d in decisions && decisions[d].status == Pending
                         && decisions[d].expiresAt.Some? && decisions[d].expiresAt.value < now;
      ghost var s := Snapshot();
      assert ids == Stale(s) && PendingAmong(decisions, ids) == ids;
      rows := UpdatePendingParents(ids, Expired);
      if ids != {} {
        UpdateChildren(ids, Expired);
      } else {
        assert MoveChildren(children, ids, Expired) == children;
      }
      assert ids == set d | d in decisions && old(decisions)[d].status == Pending && decisions[d].status == Expired;
    }

    /** `maybe_auto_approve`: approves when the confidence gate is met, else leaves the rows to a human. */
    method MaybeAutoApprove(id: Id, confidence: real, enabled: bool, threshold: real)
      modifies this
      ensures if enabled && threshold - confidence <= F64_EPSILON
              then Snapshot() == Next(old(Snapshot()), Approve(id))
              else Snapshot() == old(Snapshot())
    {
      if AutoApproveEligible(confidence, enabled, threshold) {
        var _ := AdminApprove(id);
      }
    }

    /** `mark_applied` runs unguarded: it fails only when the child row does not exist. */
    method MarkApplied(child: Id) returns (found: bool)
      requires child !in halves
      modifies this
      ensures found <==> child in old(children)
      ensures !found ==> Snapshot() == old(Snapshot())
      ensures found ==> Snapshot() == old(Snapshot()).(
          children := SetChild(old(Snapshot()), child, Applied),
          decisions := SetParentOf(old(Snapshot()), child, Applied))
      ensures old(Eligible(Snapshot(), child)) ==>
          && Enabled(old(Snapshot()), ApplyChild(child))
          && Enabled(Next(old(Snapshot()), ApplyChild(child)), ApplyParent(child))
          && Snapshot() == Next(Next(old(Snapshot()), ApplyChild(child)), ApplyParent(child))
    {
      found := child in children;
      if found {
        var parent := children[child].decision;
        children := children[child := children[child].(status := Applied)];
        decisions := MoveParents(decisions, {parent}, Applied);
        assert halves[child := MidApply] - {child} == halves;
      }
    }

    /** `mark_tactical_execution_failed`. */
    method MarkTacticalExecutionFailed(child: Id) returns (found: bool)
      requires child !in halves
      modifies this
      ensures found <==> child in old(children) && old(children)[child].table == TacticalChild
      ensures !found ==> Snapshot() == old(Snapshot())
      ensures found ==> Snapshot() == old(Snapshot()).(
          children := SetChild(old(Snapshot()), child, ExecutionFailed),
          decisions := SetParentOf(old(Snapshot()), child, Error))
      ensures found && old(Eligible(Snapshot(), child)) ==>
          && Enabled(old(Snapshot()), FailChild(child))
          && Enabled(Next(old(Snapshot()), FailChild(child)), FailParent(child))
          && Snapshot() == Next(Next(old(Snapshot()), FailChild(child)), FailParent(child))
    {
      found := child in children && children[child].table == TacticalChild;
      if found {
        var parent := children[child].decision;
        children := children[child := children[child].(status := ExecutionFailed)];
        decisions := MoveParents(decisions, {parent}, Error);
        assert halves[child := MidFail] - {child} == halves;
      }
    }

    /** The persistence path of `run_tactical_single` without interleaving: block check, parent insert,
        child insert, auto-approval.  In a well-formed store outside any apply window it keeps at most
        one decision blocking each symbol. */
    method RunTacticalSingle(symbol: string, id: Id, child: Id, ttl: nat, confidence: real, enabled: bool, threshold: real)
      returns (inserted: bool)
      requires symbol !in sweeps
      requires id !in decisions && id !in outcomes && child !in children
      modifies this
      ensures inserted == !Blocked(old(Snapshot()), symbol)
      ensures !inserted ==> Snapshot() == old(Snapshot())
      ensures inserted ==>
        var s := WithTactical(old(Snapshot()), symbol, id, child, ttl);
        Snapshot() == if AutoApproveEligible(confidence, enabled, threshold) then Next(s, Approve(id)) else s
      ensures old(WellFormed(Snapshot()) && DecisionSafety.SingleClaim(Snapshot()) && !DecisionSafety.GapOn(Snapshot(), symbol))
              ==> WellFormed(Snapshot()) && DecisionSafety.SingleClaim(Snapshot())
    {
      ghost var s := Snapshot();
      var blocked := BlockedNow(symbol);
      if blocked {
        return false;
      }
      var validUntil := now + ttl;
      decisions := decisions[id := Decision(Tactical, symbol, Pending, Some(now + ttl))];
      children := children[child := Child(id, TacticalChild, Pending, Some(validUntil), now)];
      assert Snapshot() == WithTactical(s, symbol, id, child, ttl);
      MaybeAutoApprove(id, confidence, enabled, threshold);
      if WellFormed(s) && DecisionSafety.SingleClaim(s) && !DecisionSafety.GapOn(s, symbol) {
        SweepKeeps(s, symbol, id, child, ttl);
        Keeps(WithTactical(s, symbol, id, child, ttl), Approve(id));
      }
      return true;
    }

    method BlockedNow(symbol: string) returns (blocked: bool)
      ensures blocked == Blocked(Snapshot(), symbol)
    {
      ghost var s := Snapshot();
      blocked := exists c | c in children ::
        BlocksSymbol(State(now, decisions, children, outcomes, map[], map[]), c, symbol);
      assert forall c :: BlocksSymbol(State(now, decisions, children, outcomes, map[], map[]), c, symbol)
                     <==> BlocksSymbol(s, c, symbol);
    }
  }

  /** The store after a sweep on `symbol` has inserted decision `id` and its tactical child. */
  function WithTactical(s: State, symbol: string, id: Id, child: Id, ttl: nat): State {
    s.(decisions := s.decisions[id := Decision(Tactical, symbol, Pending, Some(s.now + ttl))],
       children := s.children[child := Child(id, TacticalChild, Pending, Some(s.now + ttl), s.now)])
  }

  function AfterCheck(s: State, symbol: string): State { s.(sweeps := s.sweeps[symbol := Checked]) }

  function AfterParent(s: State, symbol: string, id: Id, ttl: nat): State {
    s.(decisions := s.decisions[id := Decision(Tactical, symbol, Pending, Some(s.now + ttl))],
       sweeps := s.sweeps[symbol := Opened(id, s.now + ttl)])
  }

  lemma SweepOpens(s: State, symbol: string, id: Id, ttl: nat)
    requires symbol !in s.sweeps && !Blocked(s, symbol) && id !in s.decisions && id !in s.outcomes
    ensures Enabled(s, BeginSweep(symbol)) && Next(s, BeginSweep(symbol)) == AfterCheck(s, symbol)
    ensures Enabled(AfterCheck(s, symbol), OpenDecision(symbol, id, s.now, ttl))
    ensures Next(AfterCheck(s, symbol), OpenDecision(symbol, id, s.now, ttl)) == AfterParent(s, symbol, id, ttl)
  {
    assert s.sweeps[symbol := Checked][symbol := Opened(id, s.now + ttl)] == s.sweeps[symbol := Opened(id, s.now + ttl)];
  }

  lemma SweepAttaches(s: State, symbol: string, id: Id, child: Id, ttl: nat)
    requires symbol !in s.sweeps && child !in s.children
    ensures Enabled(AfterParent(s, symbol, id, ttl), AttachTactical(symbol, child))
    ensures Next(AfterParent(s, symbol, id, ttl), AttachTactical(symbol, child)) == WithTactical(s, symbol, id, child, ttl)
  {
    assert s.sweeps[symbol := Opened(id, s.now + ttl)] - {symbol} == s.sweeps;
  }

  lemma SweepKeeps(s: State, symbol: string, id: Id, child: Id, ttl: nat)
    requires WellFormed(s) && DecisionSafety.SingleClaim(s) && !DecisionSafety.GapOn(s, symbol)
    requires symbol !in s.sweeps && !Blocked(s, symbol)
    requires id !in s.decisions && id !in s.outcomes && child !in s.children
    ensures WellFormed(WithTactical(s, symbol, id, child, ttl))
    ensures DecisionSafety.SingleClaim(WithTactical(s, symbol, id, child, ttl))
  {
    SweepOpens(s, symbol, id, ttl);
    SweepAttaches(s, symbol, id, child, ttl);
    Keeps(s, BeginSweep(symbol));
    Keeps(AfterCheck(s, symbol), OpenDecision(symbol, id, s.now, ttl));
    Keeps(AfterParent(s, symbol, id, ttl), AttachTactical(symbol, child));
  }

  lemma Keeps(s: State, step: Step)
    requires WellFormed(s) && DecisionSafety.SingleClaim(s) && Enabled(s, step)
    requires step.BeginSweep? ==> !DecisionSafety.GapOn(s, step.symbol)
    ensures WellFormed(Next(s, step)) && DecisionSafety.SingleClaim(Next(s, step))
  {
    StepKeepsParity(s, step);
    DecisionSafety.StepKeepsSingleClaim(s, step);
  }

  /** An approval that reports 0 rows has changed nothing. */
  lemma ApproveWithoutRowIsNoOp(s: State, id: Id)
    requires WellFormed(s) && DecideRows(s, id) == 0
    ensures Next(s, Approve(id)) == s
  {
    assert id !in PendingAmong(s.decisions, {id});
    if id in s.decisions {
      LateVerdictIsNoOp(s, id, Approved);
    } else {
      forall c | c in s.children ensures s.children[c].decision != id {
        assert ChildOk(s, c);
      }
      assert MoveChildren(s.children, {id}, Approved) == s.children;
      assert MoveParents(s.decisions, PendingAmong(s.decisions, {id}), Approved) == s.decisions;
    }
  }
}
