/**
 Whole-run safety of the "symbol is blocked" query: at most one tactical decision per symbol
 blocks at any moment.  `mark_applied` commits two separate updates, and between them the
 decision it is applying does not block.  A sweep that runs its check in that window breaks
 the safety property; a sweep that does not, never does.
 */
module DecisionSafety {
  import opened DecisionLifecycle
  import opened Options

  ghost predicate AtMostOneBlocking(s: State) {
    forall symbol, c, c' :: BlocksSymbol(s, c, symbol) && BlocksSymbol(s, c', symbol) ==>
      s.children[c].decision == s.children[c'].decision
  }

  /** Tactical child `c` is between the two updates of `mark_applied`, without a recorded outcome. */
  predicate HalfApplied(s: State, c: Id) {
    && c in s.children && c in s.halves && s.halves[c] == MidApply
    && s.children[c].table == TacticalChild
    && s.children[c].decision in s.decisions && s.children[c].decision !in s.outcomes
  }

  predicate Claims(s: State, c: Id, symbol: string) {
    || BlocksSymbol(s, c, symbol)
    || (HalfApplied(s, c) && s.decisions[s.children[c].decision].symbol == symbol)
  }

  /** A sweep in flight that can still make its own decision block `symbol`. */
  predicate SweepClaims(s: State, symbol: string) {
    symbol in s.sweeps &&
    match s.sweeps[symbol]
    case Checked => true
    case Opened(id, _) =>
      && id in s.decisions && s.decisions[id].status == Pending && id !in s.outcomes
      && After(s.decisions[id].expiresAt, s.now)
  }

  ghost predicate SingleClaim(s: State) {
    && (forall symbol, c, c' :: Claims(s, c, symbol) && Claims(s, c', symbol) ==> c == c')
    && (forall symbol, c :: SweepClaims(s, symbol) ==> !Claims(s, c, symbol))
  }

  /** Some decision on `symbol` is half applied: the window a caller must avoid. */
  ghost predicate GapOn(s: State, symbol: string) {
    exists c :: HalfApplied(s, c) && s.decisions[s.children[c].decision].symbol == symbol
  }

  // ---------------------------------------------------------------------------
  // How long a decision blocks
  // ---------------------------------------------------------------------------

  /** In a well-formed store the child's status alone decides whether it blocks its symbol: a pending tactical row
      until the expiry of its decision, an approved one until its `valid_until`, an applied one for good, save between
      the two updates of `mark_applied`; any other row never, nor any row with a recorded outcome. */
  lemma BlockingByStatus(s: State, c: Id, symbol: string)
    requires WellFormed(s) && c in s.children
    ensures var t := s.children[c];
            BlocksSymbol(s, c, symbol) <==>
              && t.table == TacticalChild && t.decision !in s.outcomes && s.decisions[t.decision].symbol == symbol
              && match t.status
                 case Pending => s.now < s.decisions[t.decision].expiresAt.value
                 case Approved => s.now < t.validUntil.value
                 case Applied => c !in s.halves
                 case _ => false
  {
    hide SweepOk;
    assert ChildOk(s, c);
  }

  // ---------------------------------------------------------------------------
  // No step but a fresh sweep creates a claim
  // ---------------------------------------------------------------------------

  lemma ApprovalAddsNoClaim(s: State, id: Id, c: Id, symbol: string)
    requires WellFormed(s) && Claims(Next(s, Approve(id)), c, symbol)
    ensures Claims(s, c, symbol)
  {
    hide SweepOk;
    assert ChildOk(s, c);
  }

  lemma RejectionAddsNoClaim(s: State, id: Id, c: Id, symbol: string)
    requires WellFormed(s) && Claims(Next(s, Reject(id)), c, symbol)
    ensures Claims(s, c, symbol)
  {
    hide SweepOk;
    assert ChildOk(s, c);
  }

  lemma ExpiryAddsNoClaim(s: State, c: Id, symbol: string)
    requires WellFormed(s) && Claims(Next(s, Expire), c, symbol)
    ensures Claims(s, c, symbol)
  {
    assert ChildOk(s, c);
  }

  lemma ApplyChildAddsNoClaim(s: State, step: Step, c: Id, symbol: string)
    requires WellFormed(s) && Enabled(s, step) && c in s.children && step.ApplyChild?
    requires Claims(Next(s, step), c, symbol)
    ensures Claims(s, c, symbol)
  {
    hide SweepOk, Blocked;
    assert ChildOk(s, c);
    assert ChildOk(s, step.child);
  }

  lemma ApplyParentAddsNoClaim(s: State, step: Step, c: Id, symbol: string)
    requires WellFormed(s) && Enabled(s, step) && c in s.children && step.ApplyParent?
    requires Claims(Next(s, step), c, symbol)
    ensures Claims(s, c, symbol)
  {
    hide SweepOk, Blocked;
    assert ChildOk(s, c);
    assert ChildOk(s, step.child);
  }

  lemma FailChildAddsNoClaim(s: State, step: Step, c: Id, symbol: string)
    requires WellFormed(s) && Enabled(s, step) && c in s.children && step.FailChild?
    requires Claims(Next(s, step), c, symbol)
    ensures Claims(s, c, symbol)
  {
    hide SweepOk, Blocked;
    assert ChildOk(s, c);
    assert ChildOk(s, step.child);
  }

  lemma FailParentAddsNoClaim(s: State, step: Step, c: Id, symbol: string)
    requires WellFormed(s) && Enabled(s, step) && c in s.children && step.FailParent?
    requires Claims(Next(s, step), c, symbol)
    ensures Claims(s, c, symbol)
  {
    hide SweepOk, Blocked;
    assert ChildOk(s, c);
    assert ChildOk(s, step.child);
  }

  lemma InsertAddsNoClaim(s: State, step: Step, c: Id, symbol: string)
    requires WellFormed(s) && Enabled(s, step)
    requires Inserts(step) && !step.AttachTactical?
    requires Claims(Next(s, step), c, symbol)
    ensures Claims(s, c, symbol)
  {
    hide Blocked, SweepOk, PairAgrees;
    if c in s.children {
      assert ChildOk(s, c);
    }
  }

  lemma AttachAddsOwnClaim(s: State, step: Step, c: Id, symbol: string)
    requires WellFormed(s) && Enabled(s, step) && step.AttachTactical?
    requires Claims(Next(s, step), c, symbol)
    ensures Claims(s, c, symbol) || (step == AttachTactical(symbol, c) && SweepClaims(s, symbol))
  {
    hide Blocked, PairAgrees;
    if c in s.children {
      assert ChildOk(s, c);
    }
    assert SweepOk(s, step.symbol);
  }

  lemma WaitingAddsNoClaim(s: State, step: Step, c: Id, symbol: string)
    requires WellFormed(s) && Enabled(s, step)
    requires step.Tick? || step.BeginSweep? || step.AbandonSweep? || step.RecordOutcome?
    requires Claims(Next(s, step), c, symbol)
    ensures Claims(s, c, symbol)
  {
    assert ChildOk(s, c);
  }

  /** A claim in the next state was there before, or is the tactical row a sweep has just attached. */
  lemma ClaimsOnlyPassOn(s: State, step: Step, c: Id, symbol: string)
    requires WellFormed(s) && Enabled(s, step)
    requires Claims(Next(s, step), c, symbol)
    ensures Claims(s, c, symbol) || (step == AttachTactical(symbol, c) && SweepClaims(s, symbol))
  {
    if step.Approve? {
      ApprovalAddsNoClaim(s, step.id, c, symbol);
    } else if step.Reject? {
      RejectionAddsNoClaim(s, step.id, c, symbol);
    } else if step.Expire? {
      ExpiryAddsNoClaim(s, c, symbol);
    } else if step.ApplyChild? {
      ApplyChildAddsNoClaim(s, step, c, symbol);
    } else if step.ApplyParent? {
      ApplyParentAddsNoClaim(s, step, c, symbol);
    } else if step.FailChild? {
      FailChildAddsNoClaim(s, step, c, symbol);
    } else if step.FailParent? {
      FailParentAddsNoClaim(s, step, c, symbol);
    } else if step.Tick? || step.BeginSweep? || step.AbandonSweep? || step.RecordOutcome? {
      WaitingAddsNoClaim(s, step, c, symbol);
    } else if step.AttachTactical? {
      AttachAddsOwnClaim(s, step, c, symbol);
    } else {
      InsertAddsNoClaim(s, step, c, symbol);
    }
  }

  lemma SweepClaimsOnlyPassOn(s: State, step: Step, symbol: string)
    requires WellFormed(s) && Enabled(s, step)
    requires SweepClaims(Next(s, step), symbol)
    ensures SweepClaims(s, symbol) || step == BeginSweep(symbol)
    ensures step.AttachTactical? ==> step.symbol != symbol
  {
    hide PairAgrees, Blocked, Eligible, ChildMoves, Stale;
    if symbol in s.sweeps {
      assert SweepOk(s, symbol);
    }
  }

  lemma StepKeepsSingleClaim(s: State, step: Step)
    requires WellFormed(s) && SingleClaim(s) && Enabled(s, step)
    requires step.BeginSweep? ==> !GapOn(s, step.symbol)
    ensures SingleClaim(Next(s, step))
  {
    var s' := Next(s, step);
    forall symbol, c, c' | Claims(s', c, symbol) && Claims(s', c', symbol) ensures c == c' {
      ClaimsOnlyPassOn(s, step, c, symbol);
      ClaimsOnlyPassOn(s, step, c', symbol);
    }
    forall symbol, c | SweepClaims(s', symbol) ensures !Claims(s', c, symbol) {
      if Claims(s', c, symbol) {
        SweepClaimsOnlyPassOn(s, step, symbol);
        ClaimsOnlyPassOn(s, step, c, symbol);
      }
    }
  }

  /** The block checks of a run all happen outside the window on their own symbol. */
  ghost predicate AvoidsGap(s: State, steps: seq<Step>)
    requires Legal(s, steps)
    decreases |steps|
  {
    steps == [] ||
    (&& (steps[0].BeginSweep? ==> !GapOn(s, steps[0].symbol))
     && AvoidsGap(Next(s, steps[0]), steps[1..]))
  }

  lemma {:induction false} RunsKeepSingleClaim(s: State, steps: seq<Step>)
    requires WellFormed(s) && SingleClaim(s) && Legal(s, steps) && AvoidsGap(s, steps)
    ensures SingleClaim(Final(s, steps))
    decreases |steps|
  {
    if steps != [] {
      StepKeepsParity(s, steps[0]);
      StepKeepsSingleClaim(s, steps[0]);
      RunsKeepSingleClaim(Next(s, steps[0]), steps[1..]);
    }
  }

  /** Main safety theorem, for every run from the empty store. */
  lemma AtMostOneDecisionBlocks(steps: seq<Step>)
    requires Legal(INIT, steps) && AvoidsGap(INIT, steps)
    ensures AtMostOneBlocking(Final(INIT, steps))
  {
    RunsKeepSingleClaim(INIT, steps);
    var s := Final(INIT, steps);
    forall symbol, c, c' | BlocksSymbol(s, c, symbol) && BlocksSymbol(s, c', symbol)
      ensures s.children[c].decision == s.children[c'].decision
    {
      assert Claims(s, c, symbol) && Claims(s, c', symbol);
    }
  }

  /** A decision that has stopped claiming its symbol never blocks it again, whatever follows. */
  lemma {:induction false} ReleasedForGood(s: State, steps: seq<Step>, c: Id, symbol: string)
    requires WellFormed(s) && Legal(s, steps)
    requires c in s.children && !Claims(s, c, symbol)
    ensures !BlocksSymbol(Final(s, steps), c, symbol)
    decreases |steps|
  {
    if steps != [] {
      if Claims(Next(s, steps[0]), c, symbol) {
        ClaimsOnlyPassOn(s, steps[0], c, symbol);
      }
      StepKeepsParity(s, steps[0]);
      ReleasedForGood(Next(s, steps[0]), steps[1..], c, symbol);
    }
  }

  /** Approving a pending row whose expiry has passed can never make it block again. */
  lemma LateApprovalNeverBlocks(s: State, c: Id, steps: seq<Step>, symbol: string)
    requires WellFormed(s) && c in s.children && s.children[c].table == TacticalChild
    requires s.children[c].decision in s.decisions
    requires s.decisions[s.children[c].decision].status == Pending
    requires s.decisions[s.children[c].decision].expiresAt.Some?
    requires s.decisions[s.children[c].decision].expiresAt.value <= s.now
    requires Legal(s, [Approve(s.children[c].decision)] + steps)
    ensures !BlocksSymbol(Final(s, [Approve(s.children[c].decision)] + steps), c, symbol)
  {
    assert ChildOk(s, c);
    ReleasedForGood(s, [Approve(s.children[c].decision)] + steps, c, symbol);
  }

  // ---------------------------------------------------------------------------
  // The single-claim invariant is exact
  // ---------------------------------------------------------------------------

  predicate Quiet(steps: seq<Step>) {
    forall i :: 0 <= i < |steps| ==> !steps[i].BeginSweep?
  }

  /** No continuation without a new sweep ever has two decisions blocking one symbol. */
  ghost predicate SafeForever(s: State) {
    forall steps :: Legal(s, steps) && Quiet(steps) ==> AtMostOneBlocking(Final(s, steps))
  }

  lemma {:induction false} QuietAvoidsGap(s: State, steps: seq<Step>)
    requires Legal(s, steps) && Quiet(steps)
    ensures AvoidsGap(s, steps)
    decreases |steps|
  {
    if steps != [] {
      QuietAvoidsGap(Next(s, steps[0]), steps[1..]);
    }
  }

  lemma FreshId(ids: set<Id>) returns (n: Id)
    ensures n !in ids
  {
    n := Above(ids);
  }

  lemma {:induction false} Above(ids: set<Id>) returns (n: Id)
    ensures forall id :: id in ids ==> id < n
    decreases ids
  {
    if ids == {} {
      n := 0;
    } else {
      var x :| x in ids;
      var m := Above(ids - {x});
      assert forall id :: id in ids ==> id == x || id in ids - {x};
      n := if m <= x then x + 1 else m;
    }
  }

  /** Finishing an `apply` turns the half-applied claim into a block and leaves every other claim in place. */
  lemma FinishApply(s: State, c: Id, symbol: string)
    requires WellFormed(s) && Claims(s, c, symbol) && HalfApplied(s, c)
    ensures BlocksSymbol(Next(s, ApplyParent(c)), c, symbol)
    ensures SweepClaims(s, symbol) ==> SweepClaims(Next(s, ApplyParent(c)), symbol)
  {
    assert ChildOk(s, c);
    if SweepClaims(s, symbol) {
      assert SweepOk(s, symbol);
    }
  }

  lemma FinishApplyKeeps(s: State, c: Id, c': Id, symbol: string)
    requires WellFormed(s) && HalfApplied(s, c) && c != c'
    requires Claims(s, c', symbol)
    ensures Claims(Next(s, ApplyParent(c)), c', symbol)
    ensures BlocksSymbol(s, c', symbol) ==> BlocksSymbol(Next(s, ApplyParent(c)), c', symbol)
  {
    assert ChildOk(s, c) && ChildOk(s, c');
    assert s.children[c].decision != s.children[c'].decision;
  }

  /** A claiming child can be made to block at once, leaving every other claim on the symbol in place. */
  lemma Surface(s: State, c: Id, symbol: string) returns (steps: seq<Step>)
    requires WellFormed(s) && Claims(s, c, symbol)
    ensures Legal(s, steps) && Quiet(steps) && WellFormed(Final(s, steps))
    ensures BlocksSymbol(Final(s, steps), c, symbol)
    ensures forall c' :: Claims(s, c', symbol) ==> Claims(Final(s, steps), c', symbol)
    ensures forall c' :: BlocksSymbol(s, c', symbol) ==> BlocksSymbol(Final(s, steps), c', symbol)
    ensures SweepClaims(s, symbol) ==> SweepClaims(Final(s, steps), symbol)
    ensures Final(s, steps).children == s.children && Final(s, steps).sweeps == s.sweeps
  {
    hide ChildOk, SweepOk, BlocksSymbol, SweepClaims, PendingAmong, MoveParents;
    if BlocksSymbol(s, c, symbol) {
      steps := [];
    } else {
      steps := [ApplyParent(c)];
      One(s, ApplyParent(c));
      StepKeepsParity(s, ApplyParent(c));
      FinishApply(s, c, symbol);
      var s' := Next(s, ApplyParent(c));
      forall c' | Claims(s, c', symbol)
        ensures Claims(s', c', symbol) && (BlocksSymbol(s, c', symbol) ==> BlocksSymbol(s', c', symbol))
      {
        if c' != c {
          FinishApplyKeeps(s, c, c', symbol);
        }
      }
    }
  }

  /** A sweep in flight can be carried on until its decision blocks, next to a child that blocks already. */
  lemma SweepSurfaces(s: State, c: Id, symbol: string) returns (steps: seq<Step>)
    requires WellFormed(s) && SweepClaims(s, symbol) && BlocksSymbol(s, c, symbol)
    ensures Legal(s, steps) && Quiet(steps) && !AtMostOneBlocking(Final(s, steps))
  {
    assert SweepOk(s, symbol);
    assert ChildOk(s, c);
    var child := FreshId(s.children.Keys);
    var attach := AttachTactical(symbol, child);
    if s.sweeps[symbol] == Checked {
      var id := FreshId(s.decisions.Keys + s.outcomes);
      var open := OpenDecision(symbol, id, s.now, 1);
      var s1 := Next(s, open);
      var s2 := Next(s1, attach);
      steps := [open] + [attach];
      One(s, open);
      One(s1, attach);
      Append(s, [open], [attach]);
      assert BlocksSymbol(s2, c, symbol) && BlocksSymbol(s2, child, symbol);
    } else {
      var s1 := Next(s, attach);
      steps := [attach];
      One(s, attach);
      assert BlocksSymbol(s1, c, symbol) && BlocksSymbol(s1, child, symbol);
    }
  }

  lemma UnsafeContinues(s: State, steps: seq<Step>)
    requires Legal(s, steps) && Quiet(steps) && !SafeForever(Final(s, steps))
    ensures !SafeForever(s)
  {
    var s' := Final(s, steps);
    var more :| Legal(s', more) && Quiet(more) && !AtMostOneBlocking(Final(s', more));
    Append(s, steps, more);
    assert Legal(s, steps + more) && Quiet(steps + more);
  }

  lemma TwoClaimsAreUnsafe(s: State, c: Id, c': Id, symbol: string)
    requires WellFormed(s) && Claims(s, c, symbol) && Claims(s, c', symbol) && c != c'
    ensures !SafeForever(s)
  {
    var a := Surface(s, c, symbol);
    var s1 := Final(s, a);
    var b := Surface(s1, c', symbol);
    BothBlock(Final(s1, b), c, c', symbol);
    UnsafeContinues(s1, b);
    UnsafeContinues(s, a);
  }

  lemma BothBlock(s: State, c: Id, c': Id, symbol: string)
    requires WellFormed(s) && BlocksSymbol(s, c, symbol) && BlocksSymbol(s, c', symbol) && c != c'
    ensures !SafeForever(s)
  {
    assert Legal(s, []) && Quiet([]) && Final(s, []) == s;
    assert !AtMostOneBlocking(s);
  }

  lemma SweepAndClaimAreUnsafe(s: State, c: Id, symbol: string)
    requires WellFormed(s) && Claims(s, c, symbol) && SweepClaims(s, symbol)
    ensures !SafeForever(s)
  {
    var a := Surface(s, c, symbol);
    var b := SweepSurfaces(Final(s, a), c, symbol);
    UnsafeContinues(s, a);
  }

  /** The invariant is not merely sufficient: it holds exactly in the states all of whose
      sweep-free continuations are safe. */
  lemma SingleClaimIsExact(s: State)
    requires WellFormed(s)
    ensures SafeForever(s) <==> SingleClaim(s)
  {
    if SingleClaim(s) {
      forall steps | Legal(s, steps) && Quiet(steps) ensures AtMostOneBlocking(Final(s, steps)) {
        QuietAvoidsGap(s, steps);
        RunsKeepSingleClaim(s, steps);
        RunsKeepParity(s, steps);
        assert forall symbol, c :: BlocksSymbol(Final(s, steps), c, symbol) ==> Claims(Final(s, steps), c, symbol);
      }
    } else if c, c', symbol :| Claims(s, c, symbol) && Claims(s, c', symbol) && c != c' {
      TwoClaimsAreUnsafe(s, c, c', symbol);
    } else {
      var symbol, c :| SweepClaims(s, symbol) && Claims(s, c, symbol);
      SweepAndClaimAreUnsafe(s, c, symbol);
    }
  }

  /** When a block check lets a sweep through, the store stays safe if and only if no decision
      on that symbol is between the two updates of `mark_applied`. */
  lemma CheckIsSafeIffNoGap(s: State, symbol: string)
    requires WellFormed(s) && SingleClaim(s) && Enabled(s, BeginSweep(symbol))
    ensures SafeForever(Next(s, BeginSweep(symbol))) <==> !GapOn(s, symbol)
  {
    var s' := Next(s, BeginSweep(symbol));
    StepKeepsParity(s, BeginSweep(symbol));
    SingleClaimIsExact(s');
    if GapOn(s, symbol) {
      var c :| HalfApplied(s, c) && s.decisions[s.children[c].decision].symbol == symbol;
      assert HalfApplied(s', c) && Claims(s', c, symbol) && SweepClaims(s', symbol);
    } else {
      StepKeepsSingleClaim(s, BeginSweep(symbol));
    }
  }

  // ---------------------------------------------------------------------------
  // The window is real
  // ---------------------------------------------------------------------------

  const ROW := Decision(Tactical, "X", Approved, Some(60))
  const LEAF := Child(1, TacticalChild, Applied, Some(60), 0)

  /** Decision 1 on "X" was approved, and its child 10 has just been marked applied. */
  const IN_WINDOW := State(0, map[1 := ROW], map[10 := LEAF], {}, map[], map[10 := MidApply])

  const PROPOSED := State(0, map[1 := ROW.(status := Pending)], map[10 := LEAF.(status := Pending)], {}, map[], map[])

  lemma SweepProposes()
    ensures Reachable(PROPOSED)
  {
    hide WellFormed, Final, Legal;
    ReachInit();
    ReachStep(INIT, BeginSweep("X"));
    var s1 := INIT.(sweeps := map["X" := Checked]);
    assert Next(INIT, BeginSweep("X")) == s1;
    ReachStep(s1, OpenDecision("X", 1, 0, 60));
    var s2 := s1.(decisions := map[1 := ROW.(status := Pending)], sweeps := map["X" := Opened(1, 60)]);
    assert Next(s1, OpenDecision("X", 1, 0, 60)) == s2;
    ReachStep(s2, AttachTactical("X", 10));
    assert Next(s2, AttachTactical("X", 10)) == PROPOSED;
  }

  lemma WindowIsReachable()
    ensures Reachable(IN_WINDOW)
  {
    hide WellFormed, Final, Legal;
    SweepProposes();
    ReachStep(PROPOSED, Approve(1));
    var approved := PROPOSED.(decisions := map[1 := ROW], children := map[10 := LEAF.(status := Approved)]);
    assert Next(PROPOSED, Approve(1)) == approved;
    ReachStep(approved, ApplyChild(10));
    assert Next(approved, ApplyChild(10)) == IN_WINDOW;
  }

  /** A legal run in which two decisions end up blocking the same symbol: the second sweep checks
      after the first decision's child was marked applied and before its parent was. */
  lemma UnsafeRunExists() returns (s: State)
    ensures Reachable(s) && !AtMostOneBlocking(s)
  {
    WindowIsReachable();
    ReachableIsWellFormed(IN_WINDOW);
    assert HalfApplied(IN_WINDOW, 10);
    assert SingleClaim(IN_WINDOW);
    CheckIsSafeIffNoGap(IN_WINDOW, "X");
    ReachStep(IN_WINDOW, BeginSweep("X"));
    var s' := Next(IN_WINDOW, BeginSweep("X"));
    var more :| Legal(s', more) && Quiet(more) && !AtMostOneBlocking(Final(s', more));
    ReachOn(s', more);
    s := Final(s', more);
  }
}
