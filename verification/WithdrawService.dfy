/** The withdrawal workflow as it runs: the row's columns are fields it updates in place, and the
    ledger is called along the way, with nothing to roll it back. Each method is proved to do what
    the specification functions say. */
module WithdrawService {
  import opened Prelude
  import opened Ledger
  import opened WithdrawModel
  import opened WithdrawInvariant
  import opened WithdrawRules

  /** `createWithdrawal`: the locks taken so far are remembered outside the database transaction,
      so that the handler can void them when anything in it throws. */
  method RequestWithdrawal(t: Terms, ledger: Tb, capped: set<nat>, dbOk: bool) returns (c: Creation)
    ensures c == CreateWithdrawal(t, ledger, capped, dbOk)
    ensures c.Stored? ==>
      && dbOk && c.w.terms == t && c.w.status == Created && c.w.operator == Workflow
      && c.w.payout.None? && c.w.feeFund.None?
      && c.w.preKyt == c.w.travelRule == if t.isFiat then Unset else GatePending
  {
    var tb, ok, netLocked, feeLocked := ledger, true, false, false;
    match ExecutePending(tb, capped, t.NetId(), t.payable, t.clientAsset, t.net, t.ledger) {
      case Ok(tb') => tb, netLocked := tb', true;
      case Err(_) => ok := false;
    }
    if ok && t.fee > 0 {
      match ExecutePending(tb, capped, t.FeeId(), t.payable, t.clientAsset, t.fee, t.ledger) {
        case Ok(tb') => tb, feeLocked := tb', true;
        case Err(_) => ok := false;
      }
    }
    if ok && dbOk {
      return Stored(NewRow(t), tb);
    }
    if netLocked {
      tb := VoidBestEffort(tb, t.NetId(), t.net);
    }
    if feeLocked {
      tb := VoidBestEffort(tb, t.FeeId(), t.fee);
    }
    return NotCreated(tb);
  }

  class WithdrawWorkflow {
    const terms: Terms
    var status: Status
    var operator: Operator
    var preKyt: Gate
    var travelRule: Gate
    var payout: Option<PayoutStatus>
    var feeFund: Option<FundStatus>
    var tb: Tb

    function State(): Withdrawal
      reads this
    {
      Withdrawal(terms, status, operator, preKyt, travelRule, payout, feeFund)
    }

    constructor (w: Withdrawal, tb: Tb)
      ensures State() == w && this.tb == tb
    {
      terms, status, operator, preKyt := w.terms, w.status, w.operator, w.preKyt;
      travelRule, payout, feeFund := w.travelRule, w.payout, w.feeFund;
      this.tb := tb;
    }

    // ── Row updates ──

    method UpdateStatus(action: Action, who: Operator) returns (ok: bool)
      modifies this`status, this`operator
      ensures var moved := Move(old(State()), action, who);
        ok == moved.Some? && State() == if moved.Some? then moved.value else old(State())
    {
      var next := Transition(status, action);
      if next.None? {
        return false;
      }
      status, operator := next.value, who;
      return true;
    }

    method SetWithdrawFeeFundStatus(s: FundStatus)
      modifies this`feeFund
      ensures State() == SetFund(old(State()), s)
    {
      if feeFund.Some? && feeFund.value != s {
        feeFund := Some(s);
      }
    }

    // ── Screening ──

    method InitializeTransactionScreen()
      modifies this`status, this`operator, this`preKyt, this`travelRule, this`payout, this`feeFund
      ensures State() == CheckScreenPass(InitializeScreen(old(State())))
    {
      preKyt := GatePending;
      travelRule := if terms.isFiat then NotRequired else GatePending;
      Screen();
    }

    /** `checkScreenPass`, and `initiatePayoutPhase` when both gates passed. */
    method Screen()
      modifies this`status, this`operator, this`payout, this`feeFund
      ensures State() == CheckScreenPass(old(State()))
    {
      if status != PendingCompliance {
        return;
      }
      if preKyt != Passed || (travelRule != Passed && travelRule != NotRequired) {
        return;
      }
      status, operator := PayoutPending, Workflow;
      payout := Some(PCreated);
      feeFund := if terms.fee > 0 then Some(FundCreated) else None;
    }

    method UpdateKyt(gate: Gate)
      modifies this
      ensures Outcome(true, State(), tb) == Step(old(State()), old(tb), SetKyt(gate))
      ensures old(Inv(State(), tb) && status != PayoutPending) ==>
        (status == PayoutPending
         <==> old(status) == PendingCompliance && gate == Passed && old(travelRule) in {Passed, NotRequired})
    {
      if Inv(State(), tb) {
        KytOpensPayoutIff(State(), tb, gate);
      }
      preKyt := gate;
      Screen();
    }

    method UpdateTravelRule(gate: Gate)
      modifies this
      ensures Outcome(true, State(), tb) == Step(old(State()), old(tb), SetTravelRule(gate))
      ensures old(Inv(State(), tb) && status != PayoutPending) ==>
        (status == PayoutPending
         <==> old(status) == PendingCompliance && old(preKyt) == Passed && gate in {Passed, NotRequired})
    {
      if Inv(State(), tb) {
        TravelRuleOpensPayoutIff(State(), tb, gate);
      }
      travelRule := gate;
      Screen();
    }

    method HandleWithdrawalCreated(needsApproval: bool) returns (ok: bool)
      modifies this
      ensures Outcome(ok, State(), tb) == Step(old(State()), old(tb), OnCreated(needsApproval))
      ensures old(Inv(State(), tb) && status == Created) ==>
        && ok && tb == old(tb) && status == (if needsApproval then PendingApproval else PendingCompliance)
        && (!needsApproval ==>
              preKyt == GatePending && travelRule == if terms.isFiat then NotRequired else GatePending)
    {
      if Inv(State(), tb) && status == Created {
        CreatedIsRouted(State(), tb, needsApproval);
      }
      if status != Created {
        return true;
      }
      ok := UpdateStatus(if needsApproval then RequireApproval else Check, Workflow);
      if ok && !needsApproval {
        InitializeTransactionScreen();
      }
    }

    method OnLargeValueApprovalDecided(approved: bool) returns (ok: bool)
      modifies this
      ensures Outcome(ok, State(), tb) == Step(old(State()), old(tb), ApprovalDecided(approved))
      ensures old(Inv(State(), tb) && status == PendingApproval) && approved ==>
        && ok && status == PendingCompliance && operator == Workflow && preKyt == GatePending
        && tb == old(tb) && tb.log == Locks(terms, Pending)
      ensures old(Inv(State(), tb) && status == PendingApproval) && !approved ==>
        ok && status == Rejected && operator == Workflow && payout.None? && tb.log == Locks(terms, Voided)
    {
      if Inv(State(), tb) && status == PendingApproval {
        ApprovedIsScreened(State(), tb);
        DeclinedIsRejected(State(), tb);
      }
      if status != PendingApproval {
        return true;
      }
      ok := UpdateStatus(if approved then GateApprove else Reject, Workflow);
      if approved {
        InitializeTransactionScreen();
      } else {
        Release();
      }
    }

    /** The administrators' status endpoint. */
    method AdminUpdateStatus(action: Action) returns (ok: bool)
      modifies this
      ensures Outcome(ok, State(), tb) == Step(old(State()), old(tb), AdminUpdate(action))
      ensures ok <==> (old(status), action) in ADMIN_MOVES
      ensures ok ==> State() == old(State()).(status := ADMIN_MOVES[(old(status), action)], operator := Admin)
      ensures tb == old(tb) && (!ok ==> State() == old(State()))
    {
      AdminMoves(State(), tb, action);
      if action !in {Check, Flag, Reject, Cancel} {
        return false;
      }
      var next := Transition(status, action);
      if next.None? || next.value in {PayoutPending, Success, Failed, Returned} {
        return false;
      }
      ok := UpdateStatus(action, Admin);
    }

    // ── Locks ──

    /** `releaseLock`: void net, void fee, cancel the fee fund, whatever the ledger answers. */
    method Release()
      modifies this`tb, this`feeFund
      ensures Outcome(true, State(), tb) == ReleaseLock(old(State()), old(tb))
    {
      tb := VoidBestEffort(tb, terms.NetId(), terms.net);
      if terms.fee > 0 {
        tb := VoidBestEffort(tb, terms.FeeId(), terms.fee);
      }
      SetWithdrawFeeFundStatus(FundCancelled);
    }

    method CompensatePayout(action: Action, target: Status) returns (ok: bool)
      modifies this
      ensures Outcome(ok, State(), tb) == Compensate(old(State()), old(tb), action, target)
    {
      ok := true;
      if status != target {
        ok := UpdateStatus(action, Workflow);
      }
      if ok {
        Release();
      }
    }

    /** `finalizeWithdrawal`: post net, post fee, collect the firm's fee, then settle the row. */
    method FinalizeWithdrawal() returns (ok: bool)
      modifies this
      ensures Outcome(ok, State(), tb) == Finalize(old(State()), old(tb))
    {
      hide PostPending, Execute;
      if status != PayoutPending {
        return true;
      }
      match PostPending(tb, terms.NetId(), terms.net) {
        case Ok(tb') => tb := tb';
        case Err(_) => return false;
      }
      if terms.fee > 0 {
        match PostPending(tb, terms.FeeId(), terms.fee) {
          case Ok(tb') => tb := tb';
          case Err(_) => return false;
        }
        match Execute(tb, terms.FirmId(), terms.firmAsset, terms.firmFee, terms.fee, terms.ledger) {
          case Ok(tb') => tb := tb';
          case Err(_) => return false;
        }
      }
      SetWithdrawFeeFundStatus(FundClear);
      if payout.Some? && payout != Some(PConfirmed) && payout != Some(PCleared) {
        return false;
      }
      ok := UpdateStatus(Succeed, Workflow);
      if payout == Some(PConfirmed) {
        payout := Some(PCleared);
      }
    }

    // ── Payout events and repairs ──

    /** `payouts.updateStatus` by an operator: the payout commits, then its event is handled. */
    method UpdatePayout(act: PayoutAction) returns (ok: bool)
      modifies this
      ensures Outcome(ok, State(), tb) == Step(old(State()), old(tb), PayoutUpdate(act))
      ensures
        var key := (terms.isFiat, if old(payout).Some? then old(payout).value else PCreated, act);
        old(Inv(State(), tb) && status == PayoutPending) && key in PAYOUT_FAILURES ==>
          && ok && status == Failed && payout == Some(PAYOUT_FAILURES[key]) && tb.log == Locks(terms, Voided)
          && feeFund == if terms.fee > 0 then Some(FundCancelled) else None
      ensures old(Inv(State(), tb) && status == PayoutPending && payout == Some(PConfirming)) && act == PConfirm ==>
        && ok && status == Success && payout == Some(PCleared) && tb.log == Settlement(terms)
        && feeFund == if terms.fee > 0 then Some(FundClear) else None
    {
      if Inv(State(), tb) && status == PayoutPending {
        PayoutMoves(State(), tb, act);
      }
      hide Inv, Step, Settlement, Locks, PAYOUT_FAILURES, PAYOUT_HOPS;
      ok := MovePayout(act);
    }

    /** Commits the payout, then handles its event. */
    method MovePayout(act: PayoutAction) returns (ok: bool)
      modifies this
      ensures Outcome(ok, State(), tb) == Step(old(State()), old(tb), PayoutUpdate(act))
    {
      if payout.None? || act == PClear {
        return false;
      }
      var next := PayoutTransition(terms.isFiat, payout.value, act);
      if next.None? {
        return false;
      }
      payout := Some(next.value);
      match next.value {
        case PConfirmed => ok := FinalizeWithdrawal();
        case PFailed => ok := CompensatePayout(Fail, Failed);
        case PTimedOut => ok := CompensatePayout(Fail, Failed);
        case PReturned => ok := CompensatePayout(Return, Returned);
        case _ => ok := true;
      }
    }

    method ReCloseoutPayout() returns (ok: bool)
      modifies this
      ensures Outcome(ok, State(), tb) == Step(old(State()), old(tb), ReCloseout)
      ensures old(status == PayoutPending && payout == Some(PConfirmed) && tb.log == Locks(terms, Pending)) ==>
        && (ok <==> CanCollect(terms, tb.accounts))
        && (ok ==> status == Success && payout == Some(PCleared) && tb.log == Settlement(terms))
    {
      if status == PayoutPending && payout == Some(PConfirmed) && tb.log == Locks(terms, Pending) {
        FinalizeSettles(State(), tb);
      }
      if payout == Some(PCleared) && status == Success {
        return true;
      }
      if payout != Some(PConfirmed) || status != PayoutPending {
        return false;
      }
      ok := FinalizeWithdrawal();
    }

    method ReCompensatePayout() returns (ok: bool)
      modifies this
      ensures Outcome(ok, State(), tb) == Step(old(State()), old(tb), ReCompensate)
      ensures old(status == PayoutPending && payout in {Some(PFailed), Some(PTimedOut)}
                  && tb.log == Locks(terms, Pending)) ==>
        ok && status == Failed && tb.log == Locks(terms, Voided)
    {
      if status == PayoutPending && payout in {Some(PFailed), Some(PTimedOut)} && tb.log == Locks(terms, Pending) {
        RepairFreesLocks(State(), tb);
      }
      if payout == Some(PReturned) {
        ok := CompensatePayout(Return, Returned);
      } else if payout == Some(PFailed) || payout == Some(PTimedOut) {
        ok := CompensatePayout(Fail, Failed);
      } else {
        ok := false;
      }
    }
  }

  // ── The demo's driver ──

  /** The payout actions the driver sends, in order. */
  function PayoutPath(isFiat: bool): seq<PayoutAction> {
    if isFiat then [PSubmit, PConfirm, PClear] else [PSign, PBroadcast, PSeenInMempool, PConfirm, PClear]
  }

  /** Where the payout stands before the driver's k-th action. */
  predicate Driven(w: Withdrawal, k: nat) {
    if k >= |PayoutPath(w.terms.isFiat)| - 1 then w.status == Success && w.payout == Some(PCleared)
    else
      w.status == PayoutPending &&
      w.payout == if k == 0 then Some(PCreated)
                  else if w.terms.isFiat || k == 3 then Some(PConfirming)
                  else if k == 1 then Some(PSigning) else Some(PBroadcasted)
  }

  lemma DrivenStep(w: Withdrawal, tb: Tb, k: nat)
    requires Inv(w, tb) && Driven(w, k) && k < |PayoutPath(w.terms.isFiat)| - 1
    ensures var o := Step(w, tb, PayoutUpdate(PayoutPath(w.terms.isFiat)[k])); o.ok && Driven(o.w, k + 1)
  {
    hide Finalize, Books, Ready;
    if k == |PayoutPath(w.terms.isFiat)| - 2 {
      Finalized(w, tb);
    }
  }

  lemma Finalized(w: Withdrawal, tb: Tb)
    requires Inv(w, tb) && w.status == PayoutPending
    ensures
      var o := Finalize(w.(payout := Some(PConfirmed)), tb);
      o.ok && o.w == SettledRow(w.(payout := Some(PConfirmed)))
  {
    FinalizeSettles(w.(payout := Some(PConfirmed)), tb);
  }

  /** `driveWithdraw` on a withdrawal just requested: it reports success exactly when the amount
      stayed below the approval threshold, and then everything is settled. The final CLEAR is
      always refused, because the workflow has cleared the payout itself; the driver takes that
      for what it is. */
  method DriveWithdraw(wf: WithdrawWorkflow, needsApproval: bool) returns (done: bool)
    requires Inv(wf.State(), wf.tb) && wf.State() == NewRow(wf.terms)
    modifies wf
    ensures done <==> !needsApproval
    ensures Inv(wf.State(), wf.tb)
    ensures done ==> wf.status == Success && wf.tb.log == Settlement(wf.terms)
                     && wf.feeFund == if wf.terms.fee > 0 then Some(FundClear) else None
  {
    StepKeepsInv(wf.State(), wf.tb, OnCreated(needsApproval));
    var _ := wf.HandleWithdrawalCreated(needsApproval);
    if wf.status != PendingCompliance {
      return false;
    }
    StepKeepsInv(wf.State(), wf.tb, SetKyt(Passed));
    wf.UpdateKyt(Passed);
    if !wf.terms.isFiat {
      StepKeepsInv(wf.State(), wf.tb, SetTravelRule(Passed));
      wf.UpdateTravelRule(Passed);
    }
    done := DrivePayout(wf);
  }

  method DrivePayout(wf: WithdrawWorkflow) returns (done: bool)
    requires Inv(wf.State(), wf.tb) && Driven(wf.State(), 0)
    modifies wf
    ensures done && Inv(wf.State(), wf.tb) && wf.status == Success
  {
    hide Inv, Step;
    var path := PayoutPath(wf.terms.isFiat);
    var k, ok := 0, true;
    while k < |path| && ok
      invariant 0 <= k <= |path| && Inv(wf.State(), wf.tb)
      invariant ok ==> Driven(wf.State(), k)
      invariant !ok ==> wf.status == Success && wf.payout == Some(PCleared)
      decreases |path| - k
    {
      StepKeepsInv(wf.State(), wf.tb, PayoutUpdate(path[k]));
      if k < |path| - 1 {
        DrivenStep(wf.State(), wf.tb, k);
      } else {
        ClearIsRefused(wf.State(), wf.tb);
      }
      ok := wf.UpdatePayout(path[k]);
      k := k + 1;
    }
    done := wf.status == Success && wf.payout == Some(PCleared);
  }

  lemma ClearIsRefused(w: Withdrawal, tb: Tb)
    ensures Step(w, tb, PayoutUpdate(PClear)) == Outcome(false, w, tb)
  {
  }
}
