/** Where a withdrawal can still go: which rows can still settle, which hold the customer's money
    for good, and when a withdrawal can succeed at all. */
module WithdrawOutcomes {
  import opened Prelude
  import opened Ledger
  import opened WithdrawModel
  import opened WithdrawInvariant

  /** On its way: nothing has gone wrong yet. */
  predicate Live(w: Withdrawal) {
    w.status in {Created, PendingApproval, PendingCompliance, PayoutPending}
  }

  /** Flagged for review, or closed by an administrator: the lock is never looked at again. */
  predicate Leaked(w: Withdrawal) {
    w.status in {UnderReview, Cancelled} || (w.status == Rejected && w.operator == Admin)
  }

  lemma OpenLocksAreLiveOrLeaked(w: Withdrawal)
    ensures LockPhase(w) == Pending <==> Live(w) || Leaked(w)
  {
  }

  // ── Leaks are for good ──

  lemma LeakedStep(w: Withdrawal, tb: Tb, op: Op)
    requires Inv(w, tb) && Leaked(w)
    ensures var o := Step(w, tb, op); Leaked(o.w) && o.tb == tb
  {
    hide Inv;
    match op
    case PayoutUpdate(act) =>
      if w.payout.Some? && act != PClear && PayoutTransition(w.terms.isFiat, w.payout.value, act).Some? {
        LeakedPayout(w, tb, PayoutTransition(w.terms.isFiat, w.payout.value, act).value);
      }
    case _ =>
  }

  lemma LeakedPayout(w: Withdrawal, tb: Tb, next: PayoutStatus)
    requires Leaked(w)
    ensures var o := AfterPayout(w, tb, next); Leaked(o.w) && o.tb == tb
  {
  }

  /** No call whatsoever gives the money of a leaked row back, or pays it out. */
  lemma {:induction false} LeakedForGood(w: Withdrawal, tb: Tb, ops: seq<Op>)
    requires Inv(w, tb) && Leaked(w)
    ensures var o := Run(w, tb, ops); Leaked(o.w) && o.tb == tb
    decreases |ops|
  {
    if ops != [] {
      LeakedStep(w, tb, ops[0]);
      StepKeepsInv(w, tb, ops[0]);
      LeakedForGood(Step(w, tb, ops[0]).w, tb, ops[1..]);
    }
  }

  // ── Live rows can settle ──

  /** The next call on the way to settlement. */
  function Next(w: Withdrawal): Op {
    match w.status
    case Created => OnCreated(false)
    case PendingApproval => ApprovalDecided(true)
    case PendingCompliance => if w.preKyt != Passed then SetKyt(Passed) else SetTravelRule(Passed)
    case _ =>
      match w.payout
      case Some(PCreated) => PayoutUpdate(if w.terms.isFiat then PSubmit else PSign)
      case Some(PSigning) => PayoutUpdate(PBroadcast)
      case Some(PBroadcasted) => PayoutUpdate(PSeenInMempool)
      case _ => PayoutUpdate(PConfirm)
  }

  function Distance(w: Withdrawal): nat {
    match w.status
    case Created => 8
    case PendingApproval => 8
    case PendingCompliance => if w.preKyt != Passed then 7 else if GatesPass(w) then 6 else 5
    case PayoutPending =>
      (match w.payout case Some(PCreated) => 4 case Some(PSigning) => 3 case Some(PBroadcasted) => 2 case _ => 1)
    case _ => 0
  }

  lemma NextScreens(w: Withdrawal, tb: Tb)
    requires Inv(w, tb) && w.status in {Created, PendingApproval, PendingCompliance}
    ensures var o := Step(w, tb, Next(w)); o.ok && Live(o.w) && Distance(o.w) < Distance(w)
  {
    hide Books;
  }

  lemma NextPays(w: Withdrawal, tb: Tb)
    requires Inv(w, tb) && w.status == PayoutPending
    ensures var o := Step(w, tb, Next(w)); o.ok && (Live(o.w) || o.w.status == Success) && Distance(o.w) < Distance(w)
  {
    hide Finalize, Books, Ready;
    if w.payout == Some(PConfirming) {
      Confirms(w, tb);
    }
  }

  lemma Confirms(w: Withdrawal, tb: Tb)
    requires Inv(w, tb) && w.status == PayoutPending
    ensures var o := Finalize(w.(payout := Some(PConfirmed)), tb); o.ok && o.w.status == Success
  {
    FinalizeSettles(w.(payout := Some(PConfirmed)), tb);
  }

  lemma NextAdvances(w: Withdrawal, tb: Tb)
    requires Inv(w, tb) && Live(w)
    ensures var o := Step(w, tb, Next(w)); o.ok && (Live(o.w) || o.w.status == Success) && Distance(o.w) < Distance(w)
  {
    if w.status == PayoutPending {
      NextPays(w, tb);
    } else {
      NextScreens(w, tb);
    }
  }

  function SettleOps(w: Withdrawal, tb: Tb, fuel: nat): seq<Op>
    decreases fuel
  {
    if fuel == 0 || !Live(w) then []
    else [Next(w)] + SettleOps(Step(w, tb, Next(w)).w, Step(w, tb, Next(w)).tb, fuel - 1)
  }

  lemma {:induction false} LiveCanSettle(w: Withdrawal, tb: Tb, fuel: nat)
    requires Inv(w, tb) && (Live(w) || w.status == Success) && Distance(w) <= fuel
    ensures Run(w, tb, SettleOps(w, tb, fuel)).w.status == Success
    decreases fuel
  {
    if Live(w) {
      NextAdvances(w, tb);
      StepKeepsInv(w, tb, Next(w));
      var o := Step(w, tb, Next(w));
      LiveCanSettle(o.w, o.tb, fuel - 1);
      RunCons(w, tb, Next(w), SettleOps(o.w, o.tb, fuel - 1));
    }
  }

  lemma RunCons(w: Withdrawal, tb: Tb, op: Op, ops: seq<Op>)
    ensures var o := Step(w, tb, op); Run(w, tb, [op] + ops) == Run(o.w, o.tb, ops)
  {
    assert ([op] + ops)[1..] == ops;
  }

  /** Exactly when the customer's locks can still be resolved: while the row is live. */
  lemma LocksResolveIffLive(w: Withdrawal, tb: Tb)
    requires Inv(w, tb) && LockPhase(w) == Pending
    ensures (exists ops :: LockPhase(Run(w, tb, ops).w) != Pending) <==> Live(w)
  {
    OpenLocksAreLiveOrLeaked(w);
    if Live(w) {
      LiveCanSettle(w, tb, Distance(w));
    } else {
      forall ops ensures LockPhase(Run(w, tb, ops).w) == Pending {
        LeakedForGood(w, tb, ops);
        OpenLocksAreLiveOrLeaked(Run(w, tb, ops).w);
      }
    }
  }

  // ── When a withdrawal can succeed at all ──

  predicate OnlyLocks(t: Terms, log: seq<Transfer>) {
    log == Locks(t, Pending) || log == Locks(t, Posted) || log == Locks(t, Voided)
  }

  predicate Unpaid(s: Status) { s != Success && s != Returned }

  /** Without the firm's fee accounts the fee cannot be booked, whatever is tried. */
  lemma FinalizeWithoutFirm(w: Withdrawal, tb: Tb)
    requires !CanCollect(w.terms, tb.accounts) && OnlyLocks(w.terms, tb.log) && Unpaid(w.status)
    ensures
      var o := Finalize(w, tb);
      o.w == w && o.tb.accounts == tb.accounts && OnlyLocks(w.terms, o.tb.log)
  {
    if tb.log == Locks(w.terms, Pending) {
      PostLocks(w.terms, tb);
      CollectFee(w.terms, tb.(log := Locks(w.terms, Posted)));
    } else {
      FindFirst(tb.log, 0, w.terms.NetId());
    }
  }

  lemma ReleaseWithoutFirm(w: Withdrawal, tb: Tb)
    requires OnlyLocks(w.terms, tb.log)
    ensures
      var o := ReleaseLock(w, tb);
      o.w == SetFund(w, FundCancelled) && o.tb.accounts == tb.accounts && OnlyLocks(w.terms, o.tb.log)
  {
    assert ReleaseLock(w, tb) == Outcome(true, SetFund(w, FundCancelled), VoidBoth(w.terms, tb));
    if tb.log == Locks(w.terms, Pending) {
      VoidOpenLocks(w.terms, tb);
    } else {
      VoidClosedLocks(w.terms, tb, if tb.log == Locks(w.terms, Posted) then Posted else Voided);
    }
  }

  lemma CompensateWithoutFirm(w: Withdrawal, tb: Tb, a: Action, target: Status)
    requires OnlyLocks(w.terms, tb.log) && Unpaid(w.status)
    requires (a == Fail && target == Failed) || (a == Return && target == Returned)
    ensures
      var o := Compensate(w, tb, a, target);
      Unpaid(o.w.status) && o.w.terms == w.terms && o.tb.accounts == tb.accounts && OnlyLocks(w.terms, o.tb.log)
  {
    hide OnlyLocks;
    if w.status == target {
      ReleaseWithoutFirm(w, tb);
    } else if Move(w, a, Workflow).Some? {
      ReleaseWithoutFirm(Move(w, a, Workflow).value, tb);
    }
  }

  lemma StepWithoutFirm(w: Withdrawal, tb: Tb, op: Op)
    requires !CanCollect(w.terms, tb.accounts) && OnlyLocks(w.terms, tb.log) && Unpaid(w.status)
    ensures
      var o := Step(w, tb, op);
      Unpaid(o.w.status) && o.w.terms == w.terms && o.tb.accounts == tb.accounts && OnlyLocks(w.terms, o.tb.log)
  {
    hide CanCollect, OnlyLocks, Finalize, Compensate, ReleaseLock;
    match op
    case ApprovalDecided(approved) =>
      if w.status == PendingApproval && !approved {
        ReleaseWithoutFirm(w.(status := Rejected, operator := Workflow), tb);
      }
    case PayoutUpdate(act) =>
      if w.payout.Some? && act != PClear && PayoutTransition(w.terms.isFiat, w.payout.value, act).Some? {
        var w1 := w.(payout := Some(PayoutTransition(w.terms.isFiat, w.payout.value, act).value));
        FinalizeWithoutFirm(w1, tb);
        CompensateWithoutFirm(w1, tb, Fail, Failed);
        CompensateWithoutFirm(w1, tb, Return, Returned);
      }
    case ReCloseout => FinalizeWithoutFirm(w, tb);
    case ReCompensate =>
      CompensateWithoutFirm(w, tb, Fail, Failed);
      CompensateWithoutFirm(w, tb, Return, Returned);
    case _ =>
  }

  lemma {:induction false} RunWithoutFirm(w: Withdrawal, tb: Tb, ops: seq<Op>)
    requires !CanCollect(w.terms, tb.accounts) && OnlyLocks(w.terms, tb.log) && Unpaid(w.status)
    ensures Unpaid(Run(w, tb, ops).w.status)
    decreases |ops|
  {
    if ops != [] {
      StepWithoutFirm(w, tb, ops[0]);
      RunWithoutFirm(Step(w, tb, ops[0]).w, Step(w, tb, ops[0]).tb, ops[1..]);
    }
  }

  /** A fresh withdrawal can reach SUCCESS exactly when the firm's accounts can take its fee. */
  lemma SucceedsIffFeeCollectable(t: Terms, tb: Tb)
    requires tb.log == [] && CanLock(t, tb.accounts)
    ensures CreateWithdrawal(t, tb, {}, true).Stored?
    ensures
      var c := CreateWithdrawal(t, tb, {}, true);
      (exists ops :: Run(c.w, c.tb, ops).w.status == Success) <==> CanCollect(t, tb.accounts)
  {
    CreateLocks(t, tb, true);
    var c := CreateWithdrawal(t, tb, {}, true);
    if CanCollect(t, tb.accounts) {
      LiveCanSettle(c.w, c.tb, Distance(c.w));
    } else {
      forall ops ensures Run(c.w, c.tb, ops).w.status != Success {
        RunWithoutFirm(c.w, c.tb, ops);
      }
    }
  }
}
