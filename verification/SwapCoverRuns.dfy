/** Whole runs of a swap whose customer payables may carry the no-overdraft flag, on the shared ledger:
    when it can be created, brought to success, and led into divergence. Cover matters at creation and
    at a resume, and nowhere in between. */
module SwapCoverRuns {
  import opened Prelude
  import opened Ledger
  import opened LedgerViews
  import opened Cover
  import opened SwapModel
  import opened SwapLedger
  import opened SwapInvariant
  import opened SwapSteps
  import opened SwapRuns
  import opened SwapDivergence
  import opened SwapRecovery
  import opened SwapLocality
  import opened SwapCover

  /** The swap's own part of the ledger. */
  function Own(ctx: Ctx, tb: Tb): Tb { View(tb, ctx.Source()) }

  // ── Every run has a run without the flag behind it ──

  lemma StepKeepsSharing(ctx: Ctx, s: Swap, tb: Tb, op: Op)
    requires Sharing(ctx, s, tb)
    ensures
      var o := Step(ctx, s, tb, op);
      && Sharing(ctx, o.swap, o.tb) && o.tb.accounts == tb.accounts
      && o.swap == Alone(ctx, s, tb, op).swap && Own(ctx, o.tb) == Alone(ctx, s, tb, op).tb
  {
    hide Step, Sound, FlagsFit, Solvent, Denied;
    SharedStep(ctx, s, tb, op);
    StepKeepsSound(ctx.Unflagged(), s, Own(ctx, tb), op);
  }

  /** What a run does over flagged payables, the calls that were not denied do on the swap's own part
      of the ledger, where no account carries the flag. */
  lemma {:induction false} RunProjects(ctx: Ctx, s: Swap, tb: Tb, ops: seq<Op>) returns (granted: seq<Op>)
    requires Sharing(ctx, s, tb)
    ensures
      var o, alone := Run(ctx, s, tb, ops), Run(ctx.Unflagged(), s, Own(ctx, tb), granted);
      && o.swap == alone.swap && Own(ctx, o.tb) == alone.tb
      && Sharing(ctx, o.swap, o.tb) && o.tb.accounts == tb.accounts
    decreases |ops|
  {
    granted := [];
    if ops != [] {
      hide Step, Sharing, Denied, Own;
      StepKeepsSharing(ctx, s, tb, ops[0]);
      var o := Step(ctx, s, tb, ops[0]);
      granted := RunProjects(ctx, o.swap, o.tb, ops[1..]);
      if !Denied(ctx, s, tb, ops[0]) {
        RunAfter(ctx.Unflagged(), s, Own(ctx, tb), ops[0], granted);
        granted := [ops[0]] + granted;
      }
    }
  }

  // ── A parked leg without cover ──

  /** Nothing but the resume that is denied could move a parked swap. */
  lemma DeniedIsStuck(ctx: Ctx, s: Swap, tb: Tb, op: Op)
    requires Sharing(ctx, s, tb) && Inv(ctx.Unflagged(), s, Own(ctx, tb))
    requires Denied(ctx, s, tb, Resume(Last(s.rows).legSeq))
    ensures Step(ctx, s, tb, op).swap == s && Step(ctx, s, tb, op).tb == tb
  {
    DeniedIsParked(ctx, s, tb);
    hide AdvanceBody, ResumeBody, Denied, Sharing, Inv;
    CappedStep(ctx, s, tb, op);
    match op
    case Advance(leg, action) => ParkedRefusesAdvance(ctx.Unflagged(), s, tb, leg, action);
    case Resume(leg) =>
      if leg != Last(s.rows).legSeq {
        OtherResumeThrows(ctx.Unflagged(), s, tb, leg);
      }
  }

  lemma DeniedIsParked(ctx: Ctx, s: Swap, tb: Tb)
    requires Sharing(ctx, s, tb) && Inv(ctx.Unflagged(), s, Own(ctx, tb))
    requires Denied(ctx, s, tb, Resume(Last(s.rows).legSeq))
    ensures s.rows != [] && 1 <= Last(s.rows).legSeq <= LEGS && Last(s.rows).status == NeedsReview
    ensures UniqueIds(tb.log) && Proper(ctx.Unflagged()) && ctx.Unflagged().Source() == ctx.Source()
  {
    hide LedgerInv, Short, Diverged;
    ActiveFacts(s.rows, Last(s.rows).legSeq);
  }

  lemma OtherResumeThrows(ctx: Ctx, s: Swap, tb: Tb, leg: nat)
    requires Inv(ctx, s, Own(ctx, tb)) && leg != Last(s.rows).legSeq
    ensures ResumeBody(ctx, s, tb, leg) == Throw(s, tb)
  {
    hide LedgerInv, CreateAndStart;
    if leg == 0 {
      NoSuchLeg(s.rows);
    } else {
      ActiveFacts(s.rows, leg);
    }
  }

  lemma ParkedRefusesAdvance(ctx: Ctx, s: Swap, tb: Tb, leg: nat, action: LegAction)
    requires Proper(ctx) && UniqueIds(tb.log) && Inv(ctx, s, Own(ctx, tb)) && Last(s.rows).status == NeedsReview
    ensures !AdvanceBody(ctx, s, tb, leg, action).ok && AdvanceBody(ctx, s, tb, leg, action).tb == tb
  {
    RowFacts(ctx, s, Own(ctx, tb), leg);
    hide AdvanceBody, Inv, Own, Active, History;
    if !(1 <= leg <= LEGS) || Active(s.rows, leg) < 0 {
      NoSuchLegThrows(ctx, s, tb, leg, action);
    } else if leg < Last(s.rows).legSeq {
      SpentOnLedger(ctx, tb, s.rows[Active(s.rows, leg)]);
      SpentCannotResolve(ctx, tb, s.rows[Active(s.rows, leg)], Voided);
      ClearLegRefuses(ctx, s, tb, leg, action);
    } else {
      AdvanceCases(ctx, s, tb, leg, action);
      ReviewIsIdle(ctx.IsFiat(ctx.Spec(leg).side), action);
    }
  }

  /** Of a parked swap: an earlier leg is clear and spent, a later one is not there. */
  lemma RowFacts(ctx: Ctx, s: Swap, v: Tb, leg: nat)
    requires Proper(ctx) && Inv(ctx, s, v) && Last(s.rows).status == NeedsReview
    ensures s.rows != [] && 1 <= Last(s.rows).legSeq <= LEGS
    ensures leg > Last(s.rows).legSeq ==> Active(s.rows, leg) < 0
    ensures leg == Last(s.rows).legSeq ==> Active(s.rows, leg) == |s.rows| - 1
    ensures 1 <= leg < Last(s.rows).legSeq ==>
      ActiveIs(s.rows, leg, Clear) && s.rows[Active(s.rows, leg)].legSeq == leg
      && Spent(ctx, v.log, s.rows[Active(s.rows, leg)])
  {
    hide LedgerInv, Spent;
    if leg >= 1 {
      ActiveFacts(s.rows, leg);
      if leg < Last(s.rows).legSeq {
        EarlierIsSpent(ctx, s, v, Active(s.rows, leg));
      }
    }
  }

  lemma SpentOnLedger(ctx: Ctx, tb: Tb, r: LegRow)
    requires UniqueIds(tb.log) && Spent(ctx, Own(ctx, tb).log, r)
    ensures Spent(ctx, tb.log, r)
  {
    MineFind(tb.log, ctx.Id(ctx.Spec(r.legSeq).entries[0].event, r.attempt));
  }

  lemma {:induction false} DeniedStaysParked(ctx: Ctx, s: Swap, tb: Tb, ops: seq<Op>)
    requires Sharing(ctx, s, tb) && Inv(ctx.Unflagged(), s, Own(ctx, tb))
    requires Denied(ctx, s, tb, Resume(Last(s.rows).legSeq))
    ensures Run(ctx, s, tb, ops).swap == s && Run(ctx, s, tb, ops).tb == tb
    decreases |ops|
  {
    if ops != [] {
      hide Step, Sharing, Inv, Denied;
      DeniedIsStuck(ctx, s, tb, ops[0]);
      DeniedStaysParked(ctx, s, tb, ops[1..]);
    }
  }

  // ── The way forward needs no cover ──

  /** Neither parked nor cancelled: the swap can be moved on by advancing its current leg. */
  predicate Moving(rows: seq<LegRow>) {
    rows != [] && Last(rows).status != Cancelled && Last(rows).status != NeedsReview
  }

  lemma HopsMove(ctx: Ctx, rows: seq<LegRow>, next: LegStatus)
    requires rows != [] && 1 <= Last(rows).legSeq <= LEGS
    requires next == Clear || InFlight(ctx.IsFiat(ctx.Spec(Last(rows).legSeq).side), next)
    ensures Moving(HopRows(ctx, rows, next))
  {
  }

  lemma MovingIsWorking(ctx: Ctx, s: Swap, v: Tb)
    requires Inv(ctx, s, v) && Moving(s.rows) && s.status != Success
    ensures Working(ctx, s, v) && 1 <= Last(s.rows).legSeq <= LEGS
  {
    hide LedgerInv;
  }

  /** One hop forward on the swap's own part of the ledger. */
  lemma HopMoves(ctx: Ctx, s: Swap, v: Tb) returns (op: Op)
    requires Proper(ctx) && Inv(ctx, s, v) && Moving(s.rows) && s.status != Success && Unblocked(ctx, s, v)
    ensures op.Advance?
    ensures
      var o := Step(ctx, s, v, op);
      && o.ok && Inv(ctx, o.swap, o.tb) && Moving(o.swap.rows) && Last(o.swap.rows).legSeq <= LEGS
      && Last(s.rows).legSeq <= LEGS && CallsLeft(o.swap.rows) < CallsLeft(s.rows)
  {
    hide Inv, Step, HopRows, CanStart, Unblocked;
    MovingIsWorking(ctx, s, v);
    var action, next := HappyHop(ctx, s, v);
    op := Advance(Last(s.rows).legSeq, action);
    HopsMove(ctx, s.rows, next);
    HopShortens(ctx, s.rows, next);
    UnblockedStep(ctx, s, v, action);
    StepKeepsInv(ctx, s, v, op);
  }

  lemma UnblockedStep(ctx: Ctx, s: Swap, v: Tb, action: LegAction)
    requires s.rows != [] && Unblocked(ctx, s, v)
    ensures !Blocked(ctx, s, v, Advance(Last(s.rows).legSeq, action))
  {
  }

  /** The same hop on the shared ledger. */
  lemma HopOnShared(ctx: Ctx, s: Swap, tb: Tb, op: Op)
    requires Sharing(ctx, s, tb) && op.Advance?
    ensures
      var o, v := Step(ctx, s, tb, op), Step(ctx.Unflagged(), s, Own(ctx, tb), op);
      && o.ok == v.ok && o.swap == v.swap && Own(ctx, o.tb) == v.tb
      && Sharing(ctx, o.swap, o.tb) && o.tb.accounts == tb.accounts
  {
    assert !Denied(ctx, s, tb, op);
    hide Step, Sound, FlagsFit, Solvent, Denied;
    SharedStep(ctx, s, tb, op);
    StepKeepsSharing(ctx, s, tb, op);
  }

  /** Advancing leads a moving swap to success, or to a leg whose successor cannot start. */
  lemma {:induction false} AdvancingLeadsOn(ctx: Ctx, s: Swap, tb: Tb) returns (ops: seq<Op>, o: Outcome)
    requires Sharing(ctx, s, tb) && Inv(ctx.Unflagged(), s, Own(ctx, tb)) && Moving(s.rows)
    requires Last(s.rows).legSeq <= LEGS
    ensures o == Run(ctx, s, tb, ops) && Sharing(ctx, o.swap, o.tb) && o.tb.accounts == tb.accounts
    ensures Inv(ctx.Unflagged(), o.swap, Own(ctx, o.tb)) && o.swap.rows != []
    ensures o.swap.status == Success || !Unblocked(ctx.Unflagged(), o.swap, Own(ctx, o.tb))
    decreases CallsLeft(s.rows)
  {
    var u, v := ctx.Unflagged(), Own(ctx, tb);
    if s.status == Success || !Unblocked(u, s, v) {
      ops, o := [], Outcome(true, s, tb);
    } else {
      hide Inv, Step, Own, Unblocked, FlagsFit, Sound, Solvent;
      var op := HopMoves(u, s, v);
      HopOnShared(ctx, s, tb, op);
      var first := Step(ctx, s, tb, op);
      ops, o := AdvancingLeadsOn(ctx, first.swap, first.tb);
      RunAfter(ctx, s, tb, op, ops);
      ops := [op] + ops;
    }
  }

  // ── Which swaps can still succeed ──

  /** A parked swap in order that is not denied its resume moves again. */
  lemma ResumeMoves(ctx: Ctx, s: Swap, tb: Tb)
    requires Sharing(ctx, s, tb) && Inv(ctx.Unflagged(), s, Own(ctx, tb)) && Last(s.rows).status == NeedsReview
    requires !Denied(ctx, s, tb, Resume(Last(s.rows).legSeq))
    ensures s.rows != []
    ensures
      var o := Step(ctx, s, tb, Resume(Last(s.rows).legSeq));
      && Sharing(ctx, o.swap, o.tb) && Inv(ctx.Unflagged(), o.swap, Own(ctx, o.tb)) && o.tb.accounts == tb.accounts
      && Moving(o.swap.rows) && Last(o.swap.rows).legSeq <= LEGS
  {
    var u, v := ctx.Unflagged(), Own(ctx, tb);
    RowFacts(u, s, v, 1);
    hide Inv, Step, Sharing, Denied, ResumeBody, Own;
    StepKeepsSharing(ctx, s, tb, Resume(Last(s.rows).legSeq));
    ResumeKeepsInv(u, s, v);
    ResumeStep(u, s, v);
  }

  /** The way to success from any state in order. */
  lemma CoveredSucceeds(ctx: Ctx, s: Swap, tb: Tb) returns (ops: seq<Op>)
    requires Sharing(ctx, s, tb) && Inv(ctx.Unflagged(), s, Own(ctx, tb)) && Configured(ctx.Unflagged(), tb)
    requires Last(s.rows).status != Cancelled && !Denied(ctx, s, tb, Resume(Last(s.rows).legSeq))
    ensures Run(ctx, s, tb, ops).swap.status == Success
  {
    var u, o := ctx.Unflagged(), Outcome(true, s, tb);
    InvRange(u, s, Own(ctx, tb));
    hide Inv, Step, Sharing, Denied, Own, Configured, Unblocked, Run;
    if Last(s.rows).status == NeedsReview {
      var again := Resume(Last(s.rows).legSeq);
      ResumeMoves(ctx, s, tb);
      var first := Step(ctx, s, tb, again);
      ops, o := AdvancingLeadsOn(ctx, first.swap, first.tb);
      RunAfter(ctx, s, tb, again, ops);
      ops := [again] + ops;
    } else {
      ops, o := AdvancingLeadsOn(ctx, s, tb);
    }
    SameConfigured(u, tb, Own(ctx, o.tb));
    ConfiguredUnblocks(u, o.swap, Own(ctx, o.tb));
  }

  lemma InvRange(ctx: Ctx, s: Swap, v: Tb)
    requires Inv(ctx, s, v)
    ensures s.rows != [] && 1 <= Last(s.rows).legSeq <= LEGS
  {
    hide LedgerInv;
  }

  lemma ConfiguredUnblocks(ctx: Ctx, s: Swap, v: Tb)
    requires Inv(ctx, s, v) && Configured(ctx, v)
    ensures Unblocked(ctx, s, v)
  {
    InvRange(ctx, s, v);
    hide Inv, CanStart;
  }

  /** Main theorem, over flagged payables and on the shared ledger: a swap in order can still succeed
      exactly when its last attempt is not cancelled, all its legs can start, and it is not parked
      without cover for its next attempt. */
  lemma CappedRecoverableIff(ctx: Ctx, s: Swap, tb: Tb)
    requires Sharing(ctx, s, tb) && Inv(ctx.Unflagged(), s, Own(ctx, tb))
    ensures Recoverable(ctx, s, tb)
       <==> Last(s.rows).status != Cancelled && Configured(ctx.Unflagged(), tb)
            && !Denied(ctx, s, tb, Resume(Last(s.rows).legSeq))
  {
    var u, v := ctx.Unflagged(), Own(ctx, tb);
    InvRange(u, s, v);
    SharingIsProper(ctx, s, tb);
    SameConfigured(u, tb, v);
    hide Inv, Sharing, Denied, Own, Configured, Run;
    if Recoverable(ctx, s, tb) {
      var ops :| Run(ctx, s, tb, ops).swap.status == Success;
      var granted := RunProjects(ctx, s, tb, ops);
      assert Recoverable(u, s, v);
      RecoverableIff(u, s, v);
      if Denied(ctx, s, tb, Resume(Last(s.rows).legSeq)) {
        DeniedStaysParked(ctx, s, tb, ops);
        DeniedIsProcessing(ctx, s, tb);
      }
    } else if Last(s.rows).status != Cancelled && Configured(u, tb)
              && !Denied(ctx, s, tb, Resume(Last(s.rows).legSeq)) {
      var ops := CoveredSucceeds(ctx, s, tb);
    }
  }

  lemma SharingIsProper(ctx: Ctx, s: Swap, tb: Tb)
    requires Sharing(ctx, s, tb)
    ensures Proper(ctx.Unflagged()) && Own(ctx, tb).accounts == tb.accounts
  {
  }

  lemma DeniedIsProcessing(ctx: Ctx, s: Swap, tb: Tb)
    requires s.rows != [] && Denied(ctx, s, tb, Resume(Last(s.rows).legSeq))
    ensures s.status == Processing
  {
  }

  // ── From creation ──

  /** A swap about to be created under an unused number, where only payables carry the flag. */
  ghost predicate Launchable(ctx: Ctx, tb: Tb) {
    && FlagsFit(ctx) && Proper(ctx.Unflagged()) && ctx.fee <= ctx.grossTo
    && Solvent(tb, ctx.capped) && UniqueIds(tb.log) && Own(ctx, tb).log == []
  }

  lemma LaunchedIsSharing(ctx: Ctx, tb: Tb)
    requires Launchable(ctx, tb) && ExecuteSwap(ctx, tb).ok
    ensures
      var o := ExecuteSwap(ctx, tb);
      && Sharing(ctx, o.swap, o.tb) && Inv(ctx.Unflagged(), o.swap, Own(ctx, o.tb)) && o.tb.accounts == tb.accounts
      && o.swap.rows == [StartRow(ctx, 1, 1)] && Moving(o.swap.rows)
  {
    var u, s := ctx.Unflagged(), Swap(Processing, None, false, [], [SwapCreated]);
    hide CreateAndStart, Short, CanStart, Inv, Solvent, FlagsFit, Funded;
    CappedCreationIff(ctx, tb);
    CreateAndStartLocal(u, s, tb, 1, 1, []);
    ExecuteEstablishesInv(u, Own(ctx, tb));
    StartingKeepsSolvent(ctx, s, tb, 1, 1, []);
  }

  /** A swap can be created and brought to success exactly when every leg can start and the payable
      has the amount free. */
  lemma CappedSucceedsIff(ctx: Ctx, tb: Tb)
    requires Launchable(ctx, tb)
    ensures
      var o := ExecuteSwap(ctx, tb);
      o.ok && Recoverable(ctx, o.swap, o.tb) <==> Configured(ctx.Unflagged(), tb) && Funded(ctx, tb)
  {
    var o := ExecuteSwap(ctx, tb);
    CappedCreationIff(ctx, tb);
    ConfiguredStarts(ctx.Unflagged(), tb, 1);
    hide ExecuteSwap, Inv, Configured, CanStart, Launchable, Sharing, Funded;
    if o.ok {
      LaunchedIsSharing(ctx, tb);
      SameConfigured(ctx.Unflagged(), tb, o.tb);
      CappedRecoverableIff(ctx, o.swap, o.tb);
      StartedIsNotDenied(ctx, o.swap, o.tb);
    }
  }

  lemma StartedIsNotDenied(ctx: Ctx, s: Swap, tb: Tb)
    requires s.rows == [StartRow(ctx, 1, 1)]
    ensures Last(s.rows).status != Cancelled && !Denied(ctx, s, tb, Resume(Last(s.rows).legSeq))
  {
  }

  /** A created swap can end up with its ledger ahead of its rows exactly when some later leg cannot
      start: lack of cover never leads there. */
  lemma CappedDivergesIff(ctx: Ctx, tb: Tb)
    requires Launchable(ctx, tb)
    ensures
      var u, o := ctx.Unflagged(), ExecuteSwap(ctx, tb);
      o.ok && (exists ops :: Diverged(u, Run(ctx, o.swap, o.tb, ops).swap, Own(ctx, Run(ctx, o.swap, o.tb, ops).tb)))
      <==> CanStart(u, tb, 1) && Funded(ctx, tb) && !Configured(u, tb)
  {
    var u, o := ctx.Unflagged(), ExecuteSwap(ctx, tb);
    CappedCreationIff(ctx, tb);
    hide ExecuteSwap, Inv, Configured, CanStart, Launchable, Sharing, Funded, Diverged, Run, Own;
    if o.ok {
      LaunchedIsSharing(ctx, tb);
      SameConfigured(u, tb, o.tb);
      if Configured(u, tb) {
        forall ops
          ensures !Diverged(u, Run(ctx, o.swap, o.tb, ops).swap, Own(ctx, Run(ctx, o.swap, o.tb, ops).tb))
        {
          CappedNeverDiverges(ctx, o.swap, o.tb, ops);
        }
      } else {
        var ops := AdvancingDiverges(ctx, o.swap, o.tb);
      }
    }
  }

  lemma CappedNeverDiverges(ctx: Ctx, s: Swap, tb: Tb, ops: seq<Op>)
    requires Sharing(ctx, s, tb) && Inv(ctx.Unflagged(), s, Own(ctx, tb)) && Configured(ctx.Unflagged(), tb)
    ensures !Diverged(ctx.Unflagged(), Run(ctx, s, tb, ops).swap, Own(ctx, Run(ctx, s, tb, ops).tb))
  {
    SharingIsProper(ctx, s, tb);
    hide Inv, Configured, Sharing, Diverged, Run, Own;
    SameConfigured(ctx.Unflagged(), tb, Own(ctx, tb));
    var granted := RunProjects(ctx, s, tb, ops);
    ConfiguredNeverDiverges(ctx.Unflagged(), s, Own(ctx, tb), granted);
  }

  lemma AdvancingDiverges(ctx: Ctx, s: Swap, tb: Tb) returns (ops: seq<Op>)
    requires Sharing(ctx, s, tb) && Inv(ctx.Unflagged(), s, Own(ctx, tb)) && Moving(s.rows)
    requires Last(s.rows).legSeq <= LEGS && !Configured(ctx.Unflagged(), tb)
    ensures Diverged(ctx.Unflagged(), Run(ctx, s, tb, ops).swap, Own(ctx, Run(ctx, s, tb, ops).tb))
  {
    var u := ctx.Unflagged();
    hide Inv, Configured, Sharing, Diverged, Run, Own, Unblocked, Step;
    var forward, o := AdvancingLeadsOn(ctx, s, tb);
    SharingIsProper(ctx, o.swap, o.tb);
    SameConfigured(u, tb, Own(ctx, o.tb));
    if o.swap.status == Success {
      SuccessStartedAll(u, o.swap, Own(ctx, o.tb));
    }
    var next := BlockedNext(u, o.swap, Own(ctx, o.tb));
    BlockedDiverges(u, o.swap, Own(ctx, o.tb), next);
    HopOnShared(ctx, o.swap, o.tb, next);
    ops := forward + [next];
    RunAppend(ctx, s, tb, forward, next);
  }

  lemma BlockedNext(ctx: Ctx, s: Swap, v: Tb) returns (op: Op)
    requires Inv(ctx, s, v) && !Unblocked(ctx, s, v)
    ensures Blocked(ctx, s, v, op) && op.Advance?
  {
    InvRange(ctx, s, v);
    hide Inv, CanStart;
    op := Advance(Last(s.rows).legSeq, Settle);
  }

  /** With every account and wallet there: exactly when one of the assets is fiat and the other is
      not, and the payable has the amount free. */
  lemma CappedEquippedSucceedsIff(ctx: Ctx, tb: Tb)
    requires Launchable(ctx, tb) && Equipped(ctx.Unflagged(), tb)
    ensures
      var o := ExecuteSwap(ctx, tb);
      o.ok && Recoverable(ctx, o.swap, o.tb) <==> OneFiat(ctx) && Funded(ctx, tb)
  {
    hide Launchable, Recoverable, ExecuteSwap, Funded;
    CappedSucceedsIff(ctx, tb);
    EquippedIsConfigured(ctx.Unflagged(), tb);
  }

  /** A refused creation leaves nothing behind exactly when the wallets of leg 1 are not found, its
      first transfer cannot be recorded, or the payable lacks cover. */
  lemma CappedRefusalLeavesNothingIff(ctx: Ctx, tb: Tb)
    requires Launchable(ctx, tb) && !ExecuteSwap(ctx, tb).ok
    ensures
      var u := ctx.Unflagged();
      ExecuteSwap(ctx, tb).tb == tb
      <==> !u.WalletsFound(u.Spec(1)) || Bookable(u, tb, u.Spec(1), u.Spec(1).entries) == [] || !Funded(ctx, tb)
  {
    var u, s := ctx.Unflagged(), Swap(Processing, None, false, [], [SwapCreated]);
    CappedCreationIff(ctx, tb);
    FirstIdsAreFree(u, tb);
    FirstStart(u, s, tb, 1);
    FirstShort(ctx, tb);
    assert u.LegAmount(1) > 0;
    hide CreateAndStart, Short, FlagsFit, Funded, Solvent, EntryReady;
  }

  lemma FirstShort(ctx: Ctx, tb: Tb)
    requires Launchable(ctx, tb)
    ensures
      var u := ctx.Unflagged();
      Bookable(u, tb, u.Spec(1), u.Spec(1).entries) != [] ==> (Short(ctx, tb, 1, 1) <==> !Funded(ctx, tb))
  {
    var u := ctx.Unflagged();
    PayableIsFirst(ctx, 1);
    FirstIdIsFree(ctx, tb);
    assert ctx.Spec(1).side == From && ctx.LegAmount(1) == ctx.fromAmount;
    hide FlagsFit, Free;
  }

  // ── A fee beyond the proceeds ──

  /** Leg 3 is about to be settled, and all that its successor could lack is cover for the fee. */
  ghost predicate FeeIsNext(ctx: Ctx, s: Swap, tb: Tb) {
    && FlagsFit(ctx) && Proper(ctx.Unflagged()) && ctx.fee > 0 && UniqueIds(tb.log)
    && Inv(ctx.Unflagged(), s, Own(ctx, tb)) && Last(s.rows).legSeq == 3 && Last(s.rows).status == Confirmed
    && CanStart(ctx.Unflagged(), tb, LEGS)
  }

  /** The payable, flagged, cannot bear the fee even with the proceeds. */
  predicate FeeUncovered(ctx: Ctx, tb: Tb) {
    var key := (CLIENT_PAYABLE, To);
    key in ctx.accounts && ctx.accounts[key] in ctx.capped && ctx.fee > Free(tb, ctx.accounts[key]) + ctx.grossTo
  }

  lemma FeeFacts(ctx: Ctx, s: Swap, tb: Tb)
    requires FeeIsNext(ctx, s, tb)
    ensures s.rows != [] && InStep(ctx.Unflagged(), s.rows, tb) && Working(ctx.Unflagged(), s, Own(ctx, tb))
    ensures s.status == Processing && Active(s.rows, 3) == |s.rows| - 1 && !PriorOpen(s.rows, |s.rows|, 3)
    ensures History(s.rows) && Last(s.rows).legSeq == 3 && Last(s.rows).status == Confirmed
  {
    hide LedgerInv;
    WorkingFacts(ctx.Unflagged(), s, Own(ctx, tb));
    ActiveFacts(s.rows, 3);
    NoPriorOpen(s.rows, |s.rows|, 3);
  }

  lemma FeeTerms(ctx: Ctx, s: Swap, tb: Tb)
    requires FeeIsNext(ctx, s, tb)
    ensures FlagsFit(ctx) && Proper(ctx.Unflagged()) && UniqueIds(tb.log) && ctx.fee > 0 && ctx.grossTo > 0
    ensures CanStart(ctx.Unflagged(), tb, LEGS) && ctx.WalletsFound(ctx.Spec(LEGS))
  {
    hide Inv, FlagsFit;
  }

  /** Settling leg 3 posts it, and then starts leg 4. */
  lemma SettlesInto(ctx: Ctx, s: Swap, tb: Tb)
    requires s.rows != [] && Last(s.rows).legSeq == 3 && Last(s.rows).status == Confirmed && s.status == Processing
    requires Active(s.rows, 3) == |s.rows| - 1 && !PriorOpen(s.rows, |s.rows|, 3)
    ensures Step(ctx, s, tb, Advance(3, Settle)) == var o := Follow(ctx, s, tb, |s.rows| - 1, Clear);
              if o.ok then o else Outcome(false, s, o.tb)
  {
    AdvanceCases(ctx, s, tb, 3, Settle);
    hide AdvanceBody, Follow;
  }

  lemma ShortFeeThrows(ctx: Ctx, s: Swap, tb: Tb, post: TbOut)
    requires FlagsFit(ctx) && s.rows != [] && Last(s.rows).legSeq == 3 && post.ok
    requires post == ResolveLeg(ctx.Unflagged(), ctx.Spec(3), ctx.Spec(3).entries, Last(s.rows).attempt, tb, Posted)
    requires ctx.WalletsFound(ctx.Spec(LEGS)) && Short(ctx, post.tb, LEGS, 1)
    ensures !Follow(ctx, s, tb, |s.rows| - 1, Clear).ok && Follow(ctx, s, tb, |s.rows| - 1, Clear).tb == post.tb
  {
    hide ResolveLeg, CreateAndStart, Short, FlagsFit;
    var row := Last(s.rows);
    var s1 := s.(rows := s.rows[|s.rows| - 1 := row.(status := Clear)]);
    UnflaggedResolves(ctx, ctx.Spec(3), ctx.Spec(3).entries, row.attempt, tb, Posted);
    StartsUnlessShort(ctx, s1.(audits := s1.audits + [LegPosted(3, row.attempt)]), post.tb, LEGS, 1, []);
  }

  lemma CoveredFeeSettles(ctx: Ctx, s: Swap, tb: Tb, post: Tb)
    requires FeeIsNext(ctx, s, tb) && s.rows != [] && !Short(ctx, post, LEGS, 1)
    requires post == ResolveLeg(ctx.Unflagged(), ctx.Spec(3), ctx.Spec(3).entries, Last(s.rows).attempt, tb, Posted).tb
    ensures Step(ctx, s, tb, Advance(3, Settle)).ok
  {
    var u, v := ctx.Unflagged(), Own(ctx, tb);
    hide FeeIsNext, InStep, CanStart, Follow, Step, FlagsFit, Proper, Short, Working, Active, PriorOpen, ResolveLeg;
    FeeFacts(ctx, s, tb);
    FeeTerms(ctx, s, tb);
    SettlesInto(ctx, s, tb);
    SettlesInto(u, s, tb);
    FollowsUnlessShort(ctx, s, tb, |s.rows| - 1, Clear);
    StepLocal(u, s, tb, Advance(3, Settle));
    SameStart(u, tb, v, LEGS);
    StepHops(u, s, v, Settle, Clear);
  }

  /** Settling leg 3 fails exactly when the payable cannot bear the fee; its posting then stays, and
      the rows do not know of it. */
  lemma FeeSettlesIff(ctx: Ctx, s: Swap, tb: Tb)
    requires FeeIsNext(ctx, s, tb)
    ensures
      var o := Step(ctx, s, tb, Advance(3, Settle));
      && (o.ok <==> !FeeUncovered(ctx, tb))
      && (!o.ok ==> o.swap == s && LedgerInv(ctx.Unflagged(), Restatus(s.rows, Clear), Own(ctx, o.tb)))
  {
    hide FeeIsNext, InStep, CanStart, Follow, Step, LedgerInv, FlagsFit, Proper, Short, Free, ResolveLeg, Active,
        PriorOpen;
    FeeFacts(ctx, s, tb);
    FeeTerms(ctx, s, tb);
    var post := FeeHasCoverIff(ctx, s.rows, tb);
    var same := SettlingMovesFree(ctx.Unflagged(), s.rows, tb, Clear, 0);
    SettlesInto(ctx, s, tb);
    if Short(ctx, post.tb, LEGS, 1) {
      ShortFeeThrows(ctx, s, tb, post);
    } else {
      CoveredFeeSettles(ctx, s, tb, post.tb);
    }
  }

  /** And no call repairs that, whatever cover other documents have supplied by then. */
  lemma UncoveredFeeIsFinal(ctx: Ctx, s: Swap, tb: Tb, later: Tb, op: Op)
    requires FeeIsNext(ctx, s, tb) && FeeUncovered(ctx, tb) && UniqueIds(later.log)
    requires Own(ctx, later) == Own(ctx, Step(ctx, s, tb, Advance(3, Settle)).tb)
    ensures Step(ctx, s, later, op) == Outcome(false, s, later)
  {
    hide FeeIsNext, FeeUncovered, InStep, CanStart, Step, LedgerInv, FlagsFit, Proper, Working, Active, PriorOpen;
    hide History, ResolveLeg, Spent;
    var u, leg := ctx.Unflagged(), op.leg;
    FeeFacts(ctx, s, tb);
    FeeTerms(ctx, s, tb);
    FeeSettlesIff(ctx, s, tb);
    if 1 <= leg <= 3 {
      var i := PostedIsSpent(u, s, Own(ctx, later), leg);
      SpentOnLedger(u, later, s.rows[i]);
      SameSpent(ctx, later, s.rows[i]);
      SpentCannotResolve(ctx, later, s.rows[i], Posted);
      SpentCannotResolve(ctx, later, s.rows[i], Voided);
      SpentLegRefuses(ctx, s, later, op);
    } else {
      LaterLegRefuses(ctx, s, later, op);
    }
  }

  lemma SameSpent(ctx: Ctx, tb: Tb, r: LegRow)
    requires Spent(ctx.Unflagged(), tb.log, r)
    ensures Spent(ctx, tb.log, r)
  {
  }

  lemma LaterLegRefuses(ctx: Ctx, s: Swap, tb: Tb, op: Op)
    requires History(s.rows) && (op.leg < 1 || op.leg > Last(s.rows).legSeq)
    ensures Step(ctx, s, tb, op) == Outcome(false, s, tb)
  {
    hide CreateAndStart, Follow, InitiatePending;
    if op.leg == 0 {
      NoSuchLeg(s.rows);
    } else {
      ActiveFacts(s.rows, op.leg);
    }
  }

  lemma PostedIsSpent(ctx: Ctx, s: Swap, v: Tb, leg: nat) returns (i: nat)
    requires Proper(ctx) && s.rows != [] && History(s.rows)
    requires Last(s.rows).status == Confirmed && Last(s.rows).legSeq == 3
    requires LedgerInv(ctx, Restatus(s.rows, Clear), v) && 1 <= leg <= 3
    ensures i < |s.rows| && i == Active(s.rows, leg) && s.rows[i].legSeq == leg
    ensures s.rows[i].status in {Clear, Confirmed} && Spent(ctx, v.log, s.rows[i])
  {
    hide LedgerInv, Spent, History;
    ActiveFacts(s.rows, leg);
    i := Active(s.rows, leg);
    var rows := Restatus(s.rows, Clear);
    HistoryRestatus(s.rows, Clear);
    AllClearIsSpent(ctx, rows, v, i);
    SpentOfRow(ctx, v, rows[i], s.rows[i]);
  }

  lemma AllClearIsSpent(ctx: Ctx, rows: seq<LegRow>, v: Tb, i: nat)
    requires Proper(ctx) && History(rows) && LedgerInv(ctx, rows, v) && i < |rows| && rows[i].status == Clear
    requires 1 <= rows[i].legSeq <= 3
    ensures Spent(ctx, v.log, rows[i])
  {
    assert v.log == Expected(ctx, v, rows) + [] && SpecOk(ctx.plan, rows[i].legSeq);
    ClearIsSpent(ctx, v, rows, i, []);
  }

  lemma SpentOfRow(ctx: Ctx, v: Tb, r: LegRow, r': LegRow)
    requires Spent(ctx, v.log, r) && r'.legSeq == r.legSeq && r'.attempt == r.attempt
    ensures Spent(ctx, v.log, r')
  {
  }
}
