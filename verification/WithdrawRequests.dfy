/** Every call to a withdrawal is a run of ledger requests under the withdrawal's own number. */
module WithdrawRequests {
  import opened Prelude
  import opened Ledger
  import opened GapLaws
  import opened Cover
  import opened Requests
  import opened WithdrawModel

  lemma VoidAsks(tb: Tb, capped: set<nat>, id: TransferId, amount: nat) returns (rs: seq<Request>)
    ensures Asks(tb, capped, rs, id.source, VoidBestEffort(tb, id, amount))
  {
    rs := [Decide(id, amount, Voided)];
    AsksOne(tb, capped, Decide(id, amount, Voided));
  }

  lemma VoidBothAsks(t: Terms, tb: Tb, capped: set<nat>) returns (rs: seq<Request>)
    ensures Asks(tb, capped, rs, t.Src(),
                 VoidBestEffort(VoidBestEffort(tb, t.NetId(), t.net), t.FeeId(), t.fee))
  {
    hide VoidBestEffort, Asks;
    var mid := VoidBestEffort(tb, t.NetId(), t.net);
    rs := VoidAsks(tb, capped, t.NetId(), t.net);
    var more := VoidAsks(mid, capped, t.FeeId(), t.fee);
    AsksBoth(tb, capped, rs, more, t.Src(), mid, VoidBestEffort(mid, t.FeeId(), t.fee));
    rs := rs + more;
  }

  lemma ReleaseAsks(w: Withdrawal, tb: Tb, capped: set<nat>) returns (rs: seq<Request>)
    ensures Asks(tb, capped, rs, w.terms.Src(), ReleaseLock(w, tb).tb)
  {
    hide VoidBestEffort, Asks;
    if w.terms.fee > 0 {
      rs := VoidBothAsks(w.terms, tb, capped);
    } else {
      rs := VoidAsks(tb, capped, w.terms.NetId(), w.terms.net);
    }
  }

  lemma CompensateAsks(w: Withdrawal, tb: Tb, a: Action, target: Status, capped: set<nat>) returns (rs: seq<Request>)
    ensures Asks(tb, capped, rs, w.terms.Src(), Compensate(w, tb, a, target).tb)
  {
    hide ReleaseLock, Asks;
    rs := [];
    AsksNothing(tb, capped, w.terms.Src());
    if w.status == target {
      rs := ReleaseAsks(w, tb, capped);
    } else if Move(w, a, Workflow).Some? {
      rs := ReleaseAsks(Move(w, a, Workflow).value, tb, capped);
    }
  }

  /** Posting a lock. */
  lemma PostAsks(tb: Tb, capped: set<nat>, id: TransferId, amount: nat)
    ensures PostPending(tb, id, amount).Ok? ==>
      Asks(tb, capped, [Decide(id, amount, Posted)], id.source, PostPending(tb, id, amount).value)
  {
    AsksOne(tb, capped, Decide(id, amount, Posted));
  }

  /** Collecting the fee, from an account without the flag. */
  lemma CollectAsks(t: Terms, tb: Tb, capped: set<nat>)
    requires t.firmAsset !in capped
    ensures
      var r := Execute(tb, t.FirmId(), t.firmAsset, t.firmFee, t.fee, t.ledger);
      var x := Transfer(t.FirmId(), t.firmAsset, t.firmFee, t.fee, t.ledger, false, Posted);
      r.Ok? ==> Asks(tb, capped, [Record(x)], t.Src(), r.value)
  {
    var x := Transfer(t.FirmId(), t.firmAsset, t.firmFee, t.fee, t.ledger, false, Posted);
    AsksOne(tb, capped, Record(x));
  }

  lemma FinalizeAsks(w: Withdrawal, tb: Tb, capped: set<nat>) returns (rs: seq<Request>)
    requires w.terms.firmAsset !in capped
    ensures Asks(tb, capped, rs, w.terms.Src(), Finalize(w, tb).tb)
  {
    hide PostPending, Execute, Asks;
    var t, src := w.terms, w.terms.Src();
    rs := [];
    AsksNothing(tb, capped, src);
    if w.status == PayoutPending && PostPending(tb, t.NetId(), t.net).Ok? {
      var tb1 := PostPending(tb, t.NetId(), t.net).value;
      PostAsks(tb, capped, t.NetId(), t.net);
      rs := [Decide(t.NetId(), t.net, Posted)];
      if t.fee > 0 && PostPending(tb1, t.FeeId(), t.fee).Ok? {
        var tb2 := PostPending(tb1, t.FeeId(), t.fee).value;
        PostAsks(tb1, capped, t.FeeId(), t.fee);
        AsksBoth(tb, capped, rs, [Decide(t.FeeId(), t.fee, Posted)], src, tb1, tb2);
        rs := rs + [Decide(t.FeeId(), t.fee, Posted)];
        var r := Execute(tb2, t.FirmId(), t.firmAsset, t.firmFee, t.fee, t.ledger);
        if r.Ok? {
          var x := Transfer(t.FirmId(), t.firmAsset, t.firmFee, t.fee, t.ledger, false, Posted);
          CollectAsks(t, tb2, capped);
          AsksBoth(tb, capped, rs, [Record(x)], src, tb2, r.value);
          rs := rs + [Record(x)];
        }
      }
    }
  }

  lemma StepAsks(w: Withdrawal, tb: Tb, op: Op, capped: set<nat>) returns (rs: seq<Request>)
    requires w.terms.firmAsset !in capped
    ensures Asks(tb, capped, rs, w.terms.Src(), Step(w, tb, op).tb)
  {
    hide Finalize, Compensate, ReleaseLock, Asks;
    rs := [];
    AsksNothing(tb, capped, w.terms.Src());
    match op
    case ApprovalDecided(approved) =>
      if w.status == PendingApproval && !approved {
        rs := ReleaseAsks(w.(status := Rejected, operator := Workflow), tb, capped);
      }
    case PayoutUpdate(act) =>
      if w.payout.Some? && act != PClear && PayoutTransition(w.terms.isFiat, w.payout.value, act).Some? {
        rs := PayoutAsks(w, tb, PayoutTransition(w.terms.isFiat, w.payout.value, act).value, capped);
      }
    case ReCloseout =>
      if w.payout == Some(PConfirmed) && w.status == PayoutPending {
        rs := FinalizeAsks(w, tb, capped);
      }
    case ReCompensate =>
      if w.payout == Some(PReturned) {
        rs := CompensateAsks(w, tb, Return, Returned, capped);
      } else if w.payout == Some(PFailed) || w.payout == Some(PTimedOut) {
        rs := CompensateAsks(w, tb, Fail, Failed, capped);
      }
    case _ =>
  }

  lemma PayoutAsks(w: Withdrawal, tb: Tb, next: PayoutStatus, capped: set<nat>) returns (rs: seq<Request>)
    requires w.terms.firmAsset !in capped
    ensures Asks(tb, capped, rs, w.terms.Src(), AfterPayout(w, tb, next).tb)
  {
    hide Finalize, Compensate, Asks;
    var w1 := w.(payout := Some(next));
    match next
    case PConfirmed => rs := FinalizeAsks(w1, tb, capped);
    case PFailed => rs := CompensateAsks(w1, tb, Fail, Failed, capped);
    case PTimedOut => rs := CompensateAsks(w1, tb, Fail, Failed, capped);
    case PReturned => rs := CompensateAsks(w1, tb, Return, Returned, capped);
    case _ =>
      rs := [];
      AsksNothing(tb, capped, w.terms.Src());
  }

  // ── Creation ──

  lemma LockAsks(tb: Tb, capped: set<nat>, id: TransferId, debit: nat, credit: nat, amount: nat, ledger: nat)
    ensures
      var r := ExecutePending(tb, capped, id, debit, credit, amount, ledger);
      r.Ok? ==> Asks(tb, capped, [Record(Transfer(id, debit, credit, amount, ledger, true, Pending))], id.source,
          r.value)
  {
    AsksOne(tb, capped, Record(Transfer(id, debit, credit, amount, ledger, true, Pending)));
  }

  /** The net amount is locked; what is asked for after that. */
  lemma LockedAsks(t: Terms, tb: Tb, tb1: Tb, capped: set<nat>, dbOk: bool) returns (rs: seq<Request>)
    requires ExecutePending(tb, capped, t.NetId(), t.payable, t.clientAsset, t.net, t.ledger) == Ok(tb1)
    ensures Asks(tb1, capped, rs, t.Src(), CreateWithdrawal(t, tb, capped, dbOk).tb)
  {
    hide ExecutePending, VoidBestEffort, Asks;
    rs := [];
    AsksNothing(tb1, capped, t.Src());
    var r := ExecutePending(tb1, capped, t.FeeId(), t.payable, t.clientAsset, t.fee, t.ledger);
    if t.fee == 0 || r.Err? {
      if t.fee > 0 || !dbOk {
        rs := VoidAsks(tb1, capped, t.NetId(), t.net);
      }
    } else {
      LockAsks(tb1, capped, t.FeeId(), t.payable, t.clientAsset, t.fee, t.ledger);
      rs := [Record(Transfer(t.FeeId(), t.payable, t.clientAsset, t.fee, t.ledger, true, Pending))];
      if !dbOk {
        var more := VoidBothAsks(t, r.value, capped);
        AsksBoth(tb1, capped, rs, more, t.Src(), r.value,
                 VoidBestEffort(VoidBestEffort(r.value, t.NetId(), t.net), t.FeeId(), t.fee));
        rs := rs + more;
      }
    }
  }

  lemma CreationAsks(t: Terms, tb: Tb, capped: set<nat>, dbOk: bool) returns (rs: seq<Request>)
    ensures Asks(tb, capped, rs, t.Src(), CreateWithdrawal(t, tb, capped, dbOk).tb)
  {
    var r := ExecutePending(tb, capped, t.NetId(), t.payable, t.clientAsset, t.net, t.ledger);
    rs := [];
    AsksNothing(tb, capped, t.Src());
    if r.Ok? {
      LockAsks(tb, capped, t.NetId(), t.payable, t.clientAsset, t.net, t.ledger);
      var first := Record(Transfer(t.NetId(), t.payable, t.clientAsset, t.net, t.ledger, true, Pending));
      hide ExecutePending, CreateWithdrawal, Asks;
      rs := LockedAsks(t, tb, r.value, capped, dbOk);
      AsksBoth(tb, capped, [first], rs, t.Src(), r.value, CreateWithdrawal(t, tb, capped, dbOk).tb);
      rs := [first] + rs;
    }
  }
}
