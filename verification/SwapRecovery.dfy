/** Which swaps can still be brought to success, and the demo driver that does so, over accounts without
    the no-overdraft flag; SwapCoverRuns has the same questions for flagged payables. */
module SwapRecovery {
  import opened Prelude
  import opened Ledger
  import opened SwapModel
  import opened SwapLedger
  import opened SwapInvariant
  import opened SwapSteps
  import opened SwapRuns
  import opened SwapDivergence
  import opened SwapService

  /** The action the driver sends next for a leg in this status, if it knows one. */
  function NextAction(isFiat: bool, s: LegStatus): Option<LegAction> {
    match s
    case Created => Some(if isFiat then Submit else Sign)
    case Signing => if isFiat then None else Some(Broadcast)
    case Broadcasted => if isFiat then None else Some(SeenInMempool)
    case Confirming => Some(Confirm)
    case Confirmed => Some(Settle)
    case _ => None
  }

  /** Hops left until a leg in this status is clear. */
  function HopsLeft(s: LegStatus): nat {
    match s
    case Clear => 0
    case Confirmed => 1
    case Confirming => 2
    case Broadcasted => 3
    case Signing => 4
    case Created => 5
    case _ => 6
  }

  lemma NextActionHops(isFiat: bool, s: LegStatus)
    requires InFlight(isFiat, s)
    ensures NextAction(isFiat, s).Some?
    ensures
      var next := Transition(isFiat, s, NextAction(isFiat, s).value);
      && next.Some? && HopsLeft(next.value) < HopsLeft(s)
      && (next.value == Clear || InFlight(isFiat, next.value))
  {
  }

  /** Operator calls left until success, while nothing fails. */
  function CallsLeft(rows: seq<LegRow>): nat
    requires rows != [] && Last(rows).legSeq <= LEGS
  {
    (LEGS - Last(rows).legSeq) * 7 + HopsLeft(Last(rows).status)
  }

  /** What a recovering operator does next. */
  function Cure(ctx: Ctx, s: Swap): Op
    requires s.rows != [] && 1 <= Last(s.rows).legSeq <= LEGS
  {
    var r := Last(s.rows);
    if r.status == NeedsReview then Resume(r.legSeq)
    else
      var a := NextAction(ctx.IsFiat(ctx.Spec(r.legSeq).side), r.status);
      Advance(r.legSeq, if a.Some? then a.value else Settle)
  }

  /** The cure does not post a leg whose successor cannot start. */
  predicate Unblocked(ctx: Ctx, s: Swap, tb: Tb)
    requires s.rows != []
  {
    Last(s.rows).status == Confirmed ==> NextCanStart(ctx, s, tb)
  }

  /** The rows after the current attempt moved on to `next` without failing. */
  function HopRows(ctx: Ctx, rows: seq<LegRow>, next: LegStatus): seq<LegRow>
    requires rows != [] && 1 <= Last(rows).legSeq <= LEGS
  {
    if next == Clear && Last(rows).legSeq < LEGS
    then Restatus(rows, Clear) + [StartRow(ctx, Last(rows).legSeq + 1, 1)]
    else Restatus(rows, next)
  }

  lemma HopReacts(ctx: Ctx, s: Swap, tb: Tb, next: LegStatus)
    requires Working(ctx, s, tb) && !TerminalFail(next) && (next == Clear ==> NextCanStart(ctx, s, tb))
    ensures React(ctx, s, tb, next).ok && React(ctx, s, tb, next).swap.rows == HopRows(ctx, s.rows, next)
  {
    hide Inv, OnLegCleared, OnLegFailed, CanStart;
    WorkingRow(ctx, s, tb);
    if next == Clear {
      if Last(s.rows).legSeq == LEGS {
        SuccessKeepsInv(ctx, s, tb);
      } else {
        ChainKeepsInv(ctx, s, tb);
      }
    }
  }

  /** The driver's next action is accepted, and brings the leg closer to clear. */
  lemma HappyHop(ctx: Ctx, s: Swap, tb: Tb) returns (action: LegAction, next: LegStatus)
    requires Working(ctx, s, tb) && Unblocked(ctx, s, tb)
    ensures NextAction(ctx.IsFiat(ctx.Spec(Last(s.rows).legSeq).side), Last(s.rows).status) == Some(action)
    ensures next == Clear || InFlight(ctx.IsFiat(ctx.Spec(Last(s.rows).legSeq).side), next)
    ensures HopsLeft(next) < HopsLeft(Last(s.rows).status) <= 4
    ensures Step(ctx, s, tb, Advance(Last(s.rows).legSeq, action)).ok
    ensures Step(ctx, s, tb, Advance(Last(s.rows).legSeq, action)).swap.rows == HopRows(ctx, s.rows, next)
  {
    var r := Last(s.rows);
    var fiat := ctx.IsFiat(ctx.Spec(r.legSeq).side);
    NextActionHops(fiat, r.status);
    action := NextAction(fiat, r.status).value;
    next := Transition(fiat, r.status, action).value;
    StepHops(ctx, s, tb, action, next);
  }

  lemma StepHops(ctx: Ctx, s: Swap, tb: Tb, action: LegAction, next: LegStatus)
    requires Working(ctx, s, tb) && !TerminalFail(next) && (next == Clear ==> NextCanStart(ctx, s, tb))
    requires Transition(ctx.IsFiat(ctx.Spec(Last(s.rows).legSeq).side), Last(s.rows).status, action) == Some(next)
    ensures Step(ctx, s, tb, Advance(Last(s.rows).legSeq, action)) == React(ctx, s, tb, next)
    ensures React(ctx, s, tb, next).ok && React(ctx, s, tb, next).swap.rows == HopRows(ctx, s.rows, next)
  {
    AdvanceCurrent(ctx, s, tb, action);
    HopReacts(ctx, s, tb, next);
  }

  /** The rows get closer to success. */
  lemma HopShortens(ctx: Ctx, rows: seq<LegRow>, next: LegStatus)
    requires rows != [] && 1 <= Last(rows).legSeq <= LEGS && HopsLeft(next) < HopsLeft(Last(rows).status) <= 4
    ensures Last(HopRows(ctx, rows, next)).status != Cancelled && Last(HopRows(ctx, rows, next)).legSeq <= LEGS
    ensures CallsLeft(HopRows(ctx, rows, next)) < CallsLeft(rows)
  {
  }

  lemma CureHops(ctx: Ctx, s: Swap, tb: Tb)
    requires Working(ctx, s, tb) && Unblocked(ctx, s, tb)
    ensures
      var o := Step(ctx, s, tb, Cure(ctx, s));
      && o.ok && o.swap.rows != [] && Last(o.swap.rows).legSeq <= LEGS
      && Last(o.swap.rows).status != Cancelled && CallsLeft(o.swap.rows) < CallsLeft(s.rows)
  {
    var action, next := HappyHop(ctx, s, tb);
    hide Inv, Step, HopRows, NextCanStart;
    HopShortens(ctx, s.rows, next);
  }

  lemma CureMakesProgress(ctx: Ctx, s: Swap, tb: Tb)
    requires Proper(ctx) && Inv(ctx, s, tb) && s.status == Processing
    requires Last(s.rows).status != Cancelled && Unblocked(ctx, s, tb)
    ensures
      var o := Step(ctx, s, tb, Cure(ctx, s));
      && o.ok && Inv(ctx, o.swap, o.tb) && o.tb.accounts == tb.accounts
      && Last(o.swap.rows).status != Cancelled && CallsLeft(o.swap.rows) < CallsLeft(s.rows)
  {
    assert !Blocked(ctx, s, tb, Cure(ctx, s));
    hide LedgerInv, Blocked, CanStart, Step, Unblocked;
    StepKeepsInv(ctx, s, tb, Cure(ctx, s));
    if Last(s.rows).status == NeedsReview {
      ResumeKeepsInv(ctx, s, tb);
      ResumeStep(ctx, s, tb);
    } else {
      CureHops(ctx, s, tb);
    }
  }

  /** Following the cure leads to success, or to a leg whose successor cannot start. */
  lemma {:induction false} CureLeadsOn(ctx: Ctx, s: Swap, tb: Tb) returns (ops: seq<Op>, o: Outcome, next: Op)
    requires Proper(ctx) && Inv(ctx, s, tb) && Last(s.rows).status != Cancelled
    ensures o == Run(ctx, s, tb, ops) && Inv(ctx, o.swap, o.tb) && o.tb.accounts == tb.accounts
    ensures o.swap.status == Success || Blocked(ctx, o.swap, o.tb, next)
    decreases CallsLeft(s.rows)
  {
    if s.status == Success || !Unblocked(ctx, s, tb) {
      ops, o, next := [], Outcome(true, s, tb), Cure(ctx, s);
    } else {
      CureMakesProgress(ctx, s, tb);
      hide Inv, Step;
      var first := Step(ctx, s, tb, Cure(ctx, s));
      ops, o, next := CureLeadsOn(ctx, first.swap, first.tb);
      RunAfter(ctx, s, tb, Cure(ctx, s), ops);
      ops := [Cure(ctx, s)] + ops;
    }
  }

  lemma {:induction false} CancelledIsStuck(ctx: Ctx, s: Swap, tb: Tb, ops: seq<Op>)
    requires Proper(ctx) && Inv(ctx, s, tb) && Last(s.rows).status == Cancelled
    ensures Run(ctx, s, tb, ops).swap == s && Run(ctx, s, tb, ops).tb == tb
    decreases |ops|
  {
    if ops != [] {
      match ops[0] {
        case Advance(leg, action) => IdleRefusesAdvance(ctx, s, tb, leg, action);
        case Resume(leg) => ResumeRefused(ctx, s, tb, leg);
      }
      CancelledIsStuck(ctx, s, tb, ops[1..]);
    }
  }

  ghost predicate Recoverable(ctx: Ctx, s: Swap, tb: Tb) {
    exists ops :: Run(ctx, s, tb, ops).swap.status == Success
  }

  lemma RecoveredIsConfigured(ctx: Ctx, s: Swap, tb: Tb, ops: seq<Op>)
    requires Sound(ctx, s, tb) && Run(ctx, s, tb, ops).swap.status == Success
    ensures Configured(ctx, tb)
  {
    var o := Run(ctx, s, tb, ops);
    RunKeepsSound(ctx, s, tb, ops);
    SuccessStartedAll(ctx, o.swap, o.tb);
    SameConfigured(ctx, tb, o.tb);
  }

  /** Exactly when a swap can still succeed: whatever failed, however often, it can, except that
      cancelling a crypto leg in flight strands the swap and its pending transfers for good, and
      that all four legs must be able to start. */
  lemma RecoverableIff(ctx: Ctx, s: Swap, tb: Tb)
    requires Proper(ctx) && Inv(ctx, s, tb)
    ensures Recoverable(ctx, s, tb) <==> Last(s.rows).status != Cancelled && Configured(ctx, tb)
  {
    assert s.rows != [];
    hide Inv, Configured, Run;
    if Recoverable(ctx, s, tb) {
      var ops :| Run(ctx, s, tb, ops).swap.status == Success;
      RecoveredIsConfigured(ctx, s, tb, ops);
      if Last(s.rows).status == Cancelled {
        CancelledIsStuck(ctx, s, tb, ops);
        CancelledIsProcessing(ctx, s, tb);
      }
    }
    if Last(s.rows).status != Cancelled && Configured(ctx, tb) {
      var ops, o, next := CureLeadsOn(ctx, s, tb);
      SameConfigured(ctx, tb, o.tb);
      ConfiguredIsUnblocked(ctx, o.swap, o.tb, next);
    }
  }

  lemma CancelledIsProcessing(ctx: Ctx, s: Swap, tb: Tb)
    requires Inv(ctx, s, tb) && Last(s.rows).status == Cancelled
    ensures s.status == Processing
  {
  }

  lemma ConfiguredIsUnblocked(ctx: Ctx, s: Swap, tb: Tb, op: Op)
    requires Configured(ctx, tb)
    ensures !Blocked(ctx, s, tb, op)
  {
  }

  // ── From creation ──

  /** A swap can be created and brought to success exactly when every leg can start. */
  lemma SwapCanSucceedIff(ctx: Ctx, tb: Tb)
    requires Proper(ctx) && tb.log == []
    ensures
      var o := ExecuteSwap(ctx, tb);
      o.ok && Recoverable(ctx, o.swap, o.tb) <==> Configured(ctx, tb)
  {
    hide Inv, Configured, CanStart, ExecuteSwap, LeftByStart;
    var o := ExecuteSwap(ctx, tb);
    ExecuteEstablishesInv(ctx, tb);
    SameConfigured(ctx, tb, o.tb);
    ConfiguredStarts(ctx, tb, 1);
    if o.ok {
      RecoverableIff(ctx, o.swap, o.tb);
      StartsUncancelled(ctx);
    }
  }

  lemma ConfiguredStarts(ctx: Ctx, tb: Tb, leg: nat)
    requires 1 <= leg <= LEGS
    ensures Configured(ctx, tb) ==> CanStart(ctx, tb, leg)
  {
  }

  lemma StartsUncancelled(ctx: Ctx)
    ensures Last([StartRow(ctx, 1, 1)]).status != Cancelled
  {
  }

  /** A created swap can end up with its ledger ahead of its rows exactly when some later leg
      cannot start. */
  lemma CanDivergeIff(ctx: Ctx, tb: Tb)
    requires Proper(ctx) && tb.log == []
    ensures
      var o := ExecuteSwap(ctx, tb);
      o.ok && (exists ops :: Diverged(ctx, Run(ctx, o.swap, o.tb, ops).swap, Run(ctx, o.swap, o.tb, ops).tb))
      <==> CanStart(ctx, tb, 1) && !Configured(ctx, tb)
  {
    hide Inv, Configured, CanStart, ExecuteSwap, LeftByStart, Diverged, Run;
    var o := ExecuteSwap(ctx, tb);
    ExecuteEstablishesInv(ctx, tb);
    SameConfigured(ctx, tb, o.tb);
    if o.ok {
      StartsUncancelled(ctx);
      if Configured(ctx, tb) {
        forall ops ensures !Diverged(ctx, Run(ctx, o.swap, o.tb, ops).swap, Run(ctx, o.swap, o.tb, ops).tb) {
          ConfiguredNeverDiverges(ctx, o.swap, o.tb, ops);
        }
      } else {
        var ops := ReachesDivergence(ctx, o.swap, o.tb);
      }
    }
  }

  lemma ConfiguredNeverDiverges(ctx: Ctx, s: Swap, tb: Tb, ops: seq<Op>)
    requires Inv(ctx, s, tb) && Configured(ctx, tb)
    ensures !Diverged(ctx, Run(ctx, s, tb, ops).swap, Run(ctx, s, tb, ops).tb)
  {
    var o := Run(ctx, s, tb, ops);
    RunKeepsInv(ctx, s, tb, ops);
    SameConfigured(ctx, tb, o.tb);
  }

  lemma ReachesDivergence(ctx: Ctx, s: Swap, tb: Tb) returns (ops: seq<Op>)
    requires Proper(ctx) && Inv(ctx, s, tb) && Last(s.rows).status != Cancelled && !Configured(ctx, tb)
    ensures Diverged(ctx, Run(ctx, s, tb, ops).swap, Run(ctx, s, tb, ops).tb)
  {
    hide Inv, Configured, Diverged;
    var cure, o, next := CureLeadsOn(ctx, s, tb);
    if o.swap.status == Success {
      SuccessStartedAll(ctx, o.swap, o.tb);
      SameConfigured(ctx, tb, o.tb);
    }
    BlockedDiverges(ctx, o.swap, o.tb, next);
    ops := cure + [next];
    RunAppend(ctx, s, tb, cure, next);
  }

  // ── Two assets of one kind ──

  /** Accounts and wallets are all there; only the kinds of the two assets are left open. */
  predicate Equipped(ctx: Ctx, tb: Tb) {
    && Proper(ctx) && ctx.plan == SwapLegPlan(ctx.fromIsFiat)
    && forall leg :: 1 <= leg <= LEGS ==> LegReady(ctx, tb, leg) && ctx.WalletsFound(ctx.Spec(leg))
  }

  lemma EquippedIsConfigured(ctx: Ctx, tb: Tb)
    requires Equipped(ctx, tb)
    ensures Proper(ctx) && (Configured(ctx, tb) <==> OneFiat(ctx))
  {
    assert ctx.Spec(LEGS).side == To;
    assert CanStart(ctx, tb, LEGS) ==> OneFiat(ctx);
    if OneFiat(ctx) {
      forall leg | 1 <= leg <= LEGS ensures CanStart(ctx, tb, leg) { }
    }
  }

  /** The workflow takes the to side for the other kind than the from side: a fully equipped swap
      can succeed exactly when one of its sides is fiat and the other is not. */
  lemma EquippedSucceedsIffOneFiat(ctx: Ctx, tb: Tb)
    requires Equipped(ctx, tb) && tb.log == []
    ensures
      var o := ExecuteSwap(ctx, tb);
      o.ok && Recoverable(ctx, o.swap, o.tb) <==> OneFiat(ctx)
  {
    hide Equipped, Configured, Recoverable, ExecuteSwap;
    EquippedIsConfigured(ctx, tb);
    SwapCanSucceedIff(ctx, tb);
  }

  // ── The demo driver ──

  predicate SingleAttempt(rows: seq<LegRow>, leg: nat) {
    forall i, j :: 0 <= i < j < |rows| ==> rows[i].legSeq != leg || rows[j].legSeq != leg
  }

  /** A started leg with one attempt, which is clear or in flight. */
  predicate Drivable(ctx: Ctx, rows: seq<LegRow>, leg: nat) {
    && rows != [] && 1 <= leg <= Last(rows).legSeq && SingleAttempt(rows, leg) && leg <= LEGS
    && (leg == Last(rows).legSeq ==>
          Last(rows).status == Clear || InFlight(ctx.IsFiat(ctx.Spec(leg).side), Last(rows).status))
  }

  /** The rows once the leg has been driven: it is clear, and the next leg has started. */
  function DrivenRows(ctx: Ctx, rows: seq<LegRow>, leg: nat): seq<LegRow>
    requires Drivable(ctx, rows, leg)
  {
    if leg < Last(rows).legSeq || Last(rows).status == Clear then rows
    else if leg == LEGS then Restatus(rows, Clear)
    else Restatus(rows, Clear) + [StartRow(ctx, leg + 1, 1)]
  }

  /** Some hops into driving the last leg. */
  predicate Underway(ctx: Ctx, rows0: seq<LegRow>, rows: seq<LegRow>, leg: nat, rounds: nat)
    requires Drivable(ctx, rows0, leg)
  {
    && leg == Last(rows0).legSeq && Last(rows0).status != Clear
    && |rows| == |rows0| && rows == Restatus(rows0, Last(rows).status)
    && InFlight(ctx.IsFiat(ctx.Spec(leg).side), Last(rows).status)
    && HopsLeft(Last(rows).status) + rounds <= 4
  }

  lemma OneHop(ctx: Ctx, rows0: seq<LegRow>, rows: seq<LegRow>, leg: nat, rounds: nat, next: LegStatus)
    requires Drivable(ctx, rows0, leg) && Underway(ctx, rows0, rows, leg, rounds)
    requires next == Clear || InFlight(ctx.IsFiat(ctx.Spec(leg).side), next)
    requires HopsLeft(next) < HopsLeft(Last(rows).status)
    ensures Last(rows).legSeq == leg && rounds < 4
    ensures Underway(ctx, rows0, HopRows(ctx, rows, next), leg, rounds + 1)
         || HopRows(ctx, rows, next) == DrivenRows(ctx, rows0, leg)
  {
    assert Restatus(rows, next) == Restatus(rows0, next);
  }

  /** A driven leg's only row is clear. */
  lemma DrivenRowIsClear(ctx: Ctx, rows0: seq<LegRow>, leg: nat, i: nat)
    requires History(rows0) && Drivable(ctx, rows0, leg)
    requires i < |DrivenRows(ctx, rows0, leg)| && DrivenRows(ctx, rows0, leg)[i].legSeq == leg
    ensures DrivenRows(ctx, rows0, leg)[i].status == Clear
  {
    if leg < Last(rows0).legSeq {
      ActiveFacts(rows0, leg);
      assert i == Active(rows0, leg);
    } else {
      assert rows0[|rows0| - 1].legSeq == leg;
      assert i == |rows0| - 1;
    }
  }

  predicate OnTrack(ctx: Ctx, rows0: seq<LegRow>, rows: seq<LegRow>, leg: nat, rounds: nat) {
    Drivable(ctx, rows0, leg) ==>
      rounds <= 4 && (Underway(ctx, rows0, rows, leg, rounds) || rows == DrivenRows(ctx, rows0, leg))
  }

  lemma LegPresent(ctx: Ctx, rows0: seq<LegRow>, rows: seq<LegRow>, leg: nat, rounds: nat)
    requires History(rows0) && Drivable(ctx, rows0, leg) && OnTrack(ctx, rows0, rows, leg, rounds)
    ensures exists i :: 0 <= i < |rows| && rows[i].legSeq == leg
  {
    ActiveFacts(rows0, leg);
    assert rows[Active(rows0, leg)].legSeq == leg;
  }

  /** While the leg is being driven, the only row the query can return is the last one. */
  lemma NotYetClear(ctx: Ctx, rows0: seq<LegRow>, rows: seq<LegRow>, leg: nat, rounds: nat, i: nat)
    requires History(rows0) && Drivable(ctx, rows0, leg) && OnTrack(ctx, rows0, rows, leg, rounds)
    requires i < |rows| && rows[i].legSeq == leg && rows[i].status != Clear
    ensures Underway(ctx, rows0, rows, leg, rounds) && i == |rows| - 1
  {
    if rows == DrivenRows(ctx, rows0, leg) {
      DrivenRowIsClear(ctx, rows0, leg, i);
    } else {
      assert rows0[i].legSeq == leg && rows0[|rows| - 1].legSeq == leg;
    }
  }

  function ActionFor(ctx: Ctx, leg: nat, status: LegStatus): Option<LegAction> {
    if 1 <= leg <= LEGS then NextAction(ctx.IsFiat(ctx.Spec(leg).side), status) else None
  }

  /** A round on a drivable leg that is not clear yet succeeds. */
  lemma RoundSucceeds(ctx: Ctx, rows0: seq<LegRow>, s: Swap, tb: Tb, leg: nat, rounds: nat, i: nat)
    requires History(rows0) && Drivable(ctx, rows0, leg) && OnTrack(ctx, rows0, s.rows, leg, rounds) && Inv(ctx, s, tb)
    requires i < |s.rows| && s.rows[i].legSeq == leg && s.rows[i].status != Clear && Configured(ctx, tb)
    ensures ActionFor(ctx, leg, s.rows[i].status).Some?
    ensures Step(ctx, s, tb, Advance(leg, ActionFor(ctx, leg, s.rows[i].status).value)).ok
    ensures OnTrack(ctx, rows0, Step(ctx, s, tb, Advance(leg, ActionFor(ctx, leg, s.rows[i].status).value)).swap.rows,
                    leg, rounds + 1)
    ensures rounds < 4
  {
    NotYetClear(ctx, rows0, s.rows, leg, rounds, i);
    var action, next := HappyHop(ctx, s, tb);
    OneHop(ctx, rows0, s.rows, leg, rounds, next);
  }

  /** The unordered query for a row of the leg: any of them, or none. */
  method FindLegRow(rows: seq<LegRow>, leg: nat) returns (i: Option<nat>)
    ensures i.Some? ==> i.value < |rows| && rows[i.value].legSeq == leg
    ensures i.None? ==> forall k :: 0 <= k < |rows| ==> rows[k].legSeq != leg
  {
    if exists k :: 0 <= k < |rows| && rows[k].legSeq == leg {
      var k :| 0 <= k < |rows| && rows[k].legSeq == leg;
      return Some(k);
    }
    return None;
  }

  lemma ClearMeansDriven(ctx: Ctx, rows0: seq<LegRow>, rows: seq<LegRow>, leg: nat, rounds: nat, i: nat)
    requires Drivable(ctx, rows0, leg) && OnTrack(ctx, rows0, rows, leg, rounds)
    requires i < |rows| && rows[i].legSeq == leg && rows[i].status == Clear
    ensures rows == DrivenRows(ctx, rows0, leg)
  {
  }

  datatype Round = Advanced | FoundClear | Threw

  /** A swap in order, all of whose legs can start, about to have this leg driven. */
  predicate Ready(ctx: Ctx, s: Swap, tb: Tb, leg: nat) {
    Inv(ctx, s, tb) && Configured(ctx, tb) && Drivable(ctx, s.rows, leg)
  }

  /** One round: read a row of the leg, stop if it is clear, otherwise send its next action. */
  method DriveRound(wf: SwapWorkflow, leg: nat, ghost s0: Swap, ghost tb0: Tb, ghost rounds: nat) returns (r: Round)
    requires Sound(wf.ctx, wf.State(), wf.tb) && wf.tb.accounts == tb0.accounts
    requires Ready(wf.ctx, s0, tb0, leg) ==>
      Inv(wf.ctx, wf.State(), wf.tb) && OnTrack(wf.ctx, s0.rows, wf.rows, leg, rounds)
    modifies wf
    ensures Sound(wf.ctx, wf.State(), wf.tb) && wf.tb.accounts == tb0.accounts
    ensures Ready(wf.ctx, s0, tb0, leg) ==> r != Threw && Inv(wf.ctx, wf.State(), wf.tb)
    ensures Ready(wf.ctx, s0, tb0, leg) && r == Advanced ==>
      rounds < 4 && OnTrack(wf.ctx, s0.rows, wf.rows, leg, rounds + 1)
    ensures Ready(wf.ctx, s0, tb0, leg) && r == FoundClear ==> wf.rows == DrivenRows(wf.ctx, s0.rows, leg)
  {
    ghost var good := Ready(wf.ctx, s0, tb0, leg);
    hide Sound, Inv, Configured, OnTrack, Drivable, Step, Blocked;
    var i := FindLegRow(wf.rows, leg);
    if i.None? {
      if good {
        ReadyFacts(wf.ctx, s0, tb0, leg);
        LegPresent(wf.ctx, s0.rows, wf.rows, leg, rounds);
      }
      return Threw;
    }
    var status := wf.rows[i.value].status;
    if status == Clear {
      if good {
        ClearMeansDriven(wf.ctx, s0.rows, wf.rows, leg, rounds, i.value);
      }
      return FoundClear;
    }
    if good {
      ReadyFacts(wf.ctx, s0, tb0, leg);
      SameConfigured(wf.ctx, tb0, wf.tb);
      RoundSucceeds(wf.ctx, s0.rows, wf.State(), wf.tb, leg, rounds, i.value);
    }
    var action := ActionFor(wf.ctx, leg, status);
    if action.None? {
      return Threw;
    }
    if good {
      ConfiguredIsUnblocked(wf.ctx, wf.State(), wf.tb, Advance(leg, action.value));
    }
    var ok := wf.AdvanceLeg(leg, action.value);
    return if ok then Advanced else Threw;
  }

  lemma ReadyFacts(ctx: Ctx, s: Swap, tb: Tb, leg: nat)
    requires Ready(ctx, s, tb, leg)
    ensures History(s.rows) && Configured(ctx, tb) && Drivable(ctx, s.rows, leg)
  {
  }

  lemma StartsOnTrack(ctx: Ctx, s: Swap, tb: Tb, leg: nat)
    ensures OnTrack(ctx, s.rows, s.rows, leg, 0)
    ensures Ready(ctx, s, tb, leg) ==> Inv(ctx, s, tb) && Drivable(ctx, s.rows, leg)
  {
  }

  /** `driveSwapLegToClear`: up to twelve rounds. The query does not order by attempt, so with
      several attempts any row may come back; with one attempt the leg is clear within four calls
      and the final throw is out of reach. */
  method DriveSwapLegToClear(wf: SwapWorkflow, leg: nat) returns (cleared: bool, rounds: nat)
    requires Sound(wf.ctx, wf.State(), wf.tb)
    modifies wf
    ensures Sound(wf.ctx, wf.State(), wf.tb) && wf.tb.accounts == old(wf.tb.accounts)
    ensures old(Ready(wf.ctx, wf.State(), wf.tb, leg)) ==>
      && cleared && rounds <= 4 && Inv(wf.ctx, wf.State(), wf.tb)
      && wf.rows == old(DrivenRows(wf.ctx, wf.rows, leg))
  {
    hide Sound, Inv, Configured, OnTrack, Drivable, DrivenRows;
    rounds := 0;
    ghost var s0, tb0 := wf.State(), wf.tb;
    StartsOnTrack(wf.ctx, s0, tb0, leg);
    while rounds < 12
      invariant Sound(wf.ctx, wf.State(), wf.tb) && wf.tb.accounts == tb0.accounts
      invariant Ready(wf.ctx, s0, tb0, leg) ==>
        rounds <= 4 && Inv(wf.ctx, wf.State(), wf.tb) && OnTrack(wf.ctx, s0.rows, wf.rows, leg, rounds)
    {
      var r := DriveRound(wf, leg, s0, tb0, rounds);
      if r != Advanced {
        return r == FoundClear, rounds;
      }
      rounds := rounds + 1;
    }
    return false, rounds;
  }

  /** Created and untroubled so far: one attempt per leg, the last one in flight. */
  predicate Untroubled(ctx: Ctx, s: Swap, tb: Tb) {
    && Inv(ctx, s, tb) && Configured(ctx, tb)
    && (forall leg :: 1 <= leg <= LEGS ==> SingleAttempt(s.rows, leg))
    && InFlight(ctx.IsFiat(ctx.Spec(Last(s.rows).legSeq).side), Last(s.rows).status)
  }

  /** `driveSwapToSuccess`: legs 1 to 4 in turn. */
  method DriveSwapToSuccess(wf: SwapWorkflow) returns (ok: bool)
    requires Sound(wf.ctx, wf.State(), wf.tb)
    modifies wf
    ensures Sound(wf.ctx, wf.State(), wf.tb)
    ensures old(Untroubled(wf.ctx, wf.State(), wf.tb)) ==> ok && wf.status == Success
  {
    ok := true;
    ghost var s0, tb0 := wf.State(), wf.tb;
    for leg := 1 to LEGS + 1
      invariant Sound(wf.ctx, wf.State(), wf.tb) && wf.tb.accounts == tb0.accounts
      invariant Untroubled(wf.ctx, s0, tb0) ==>
        Inv(wf.ctx, wf.State(), wf.tb) && AllDrivable(wf.ctx, wf.rows, leg)
    {
      if Untroubled(wf.ctx, s0, tb0) {
        SameConfigured(wf.ctx, tb0, wf.tb);
        StillDrivable(wf.ctx, wf.rows, leg);
      }
      var cleared, _ := DriveSwapLegToClear(wf, leg);
      if !cleared {
        return false;
      }
    }
  }

  /** Legs before `leg` are clear, every leg has one attempt, and the last row is clear only on
      the last leg. */
  predicate AllDrivable(ctx: Ctx, rows: seq<LegRow>, leg: nat) {
    && rows != [] && 1 <= leg && 1 <= Last(rows).legSeq <= LEGS
    && (forall l :: 1 <= l <= LEGS ==> SingleAttempt(rows, l))
    && (Last(rows).status == Clear ==> Last(rows).legSeq == LEGS)
    && (Last(rows).status == Clear || InFlight(ctx.IsFiat(ctx.Spec(Last(rows).legSeq).side), Last(rows).status))
    && (if leg <= LEGS then leg <= Last(rows).legSeq else Last(rows).status == Clear)
  }

  lemma StillDrivable(ctx: Ctx, rows: seq<LegRow>, leg: nat)
    requires History(rows) && leg <= LEGS && AllDrivable(ctx, rows, leg)
    ensures Drivable(ctx, rows, leg)
    ensures AllDrivable(ctx, DrivenRows(ctx, rows, leg), leg + 1)
  {
    var rows' := DrivenRows(ctx, rows, leg);
    forall l | 1 <= l <= LEGS ensures SingleAttempt(rows', l) {
      assert SingleAttempt(rows, l);
      forall i, j | 0 <= i < j < |rows'| ensures rows'[i].legSeq != l || rows'[j].legSeq != l {
        if j == |rows| {
          LegsUpToLast(rows, i);
        } else {
          assert rows'[i].legSeq == rows[i].legSeq && rows'[j].legSeq == rows[j].legSeq;
        }
      }
    }
  }
}
