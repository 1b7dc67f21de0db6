/** What a withdrawal's row and the ledger say about each other, and that every call keeps it.
    Here the ledger is the withdrawal's own part of it; the shared ledger, and payables with the
    no-overdraft flag, follow in WithdrawLocality and WithdrawSystem. */
module WithdrawInvariant {
  import opened Prelude
  import opened Ledger
  import opened WithdrawModel

  // ── The invariant ──

  predicate CanTransfer(accounts: map<nat, Account>, debit: nat, credit: nat, ledger: nat) {
    && debit != credit && debit in accounts && credit in accounts
    && accounts[debit].ledger == ledger && accounts[credit].ledger == ledger
  }

  /** The customer's accounts take the locks. */
  predicate CanLock(t: Terms, accounts: map<nat, Account>) {
    CanTransfer(accounts, t.payable, t.clientAsset, t.ledger)
  }

  /** The firm's accounts take the fee, when there is one. */
  predicate CanCollect(t: Terms, accounts: map<nat, Account>) {
    t.fee > 0 ==> CanTransfer(accounts, t.firmAsset, t.firmFee, t.ledger)
  }

  predicate Ready(t: Terms, accounts: map<nat, Account>) {
    CanLock(t, accounts) && CanCollect(t, accounts)
  }

  function NetLock(t: Terms, phase: Phase): Transfer {
    Transfer(t.NetId(), t.payable, t.clientAsset, t.net, t.ledger, true, phase)
  }

  function FeeLock(t: Terms, phase: Phase): Transfer {
    Transfer(t.FeeId(), t.payable, t.clientAsset, t.fee, t.ledger, true, phase)
  }

  function FirmFee(t: Terms): Transfer {
    Transfer(t.FirmId(), t.firmAsset, t.firmFee, t.fee, t.ledger, false, Posted)
  }

  function Locks(t: Terms, phase: Phase): seq<Transfer> {
    if t.fee == 0 then [NetLock(t, phase)] else [NetLock(t, phase), FeeLock(t, phase)]
  }

  function Settlement(t: Terms): seq<Transfer> {
    if t.fee == 0 then [NetLock(t, Posted)] else [NetLock(t, Posted), FeeLock(t, Posted), FirmFee(t)]
  }

  /** Where the customer's money is, read off the row alone. */
  function LockPhase(w: Withdrawal): Phase {
    match w.status
    case Success => Posted
    case Returned => Posted
    case Failed => Voided
    case Rejected => if w.operator == Admin then Pending else Voided
    case _ => Pending
  }

  /** Every transfer the withdrawal has made, read off the row alone. */
  function Books(w: Withdrawal): seq<Transfer> {
    if LockPhase(w) == Posted then Settlement(w.terms) else Locks(w.terms, LockPhase(w))
  }

  /** The payout is neither confirmed nor terminal. */
  predicate InFlight(isFiat: bool, p: PayoutStatus) {
    p.PCreated? || p.PConfirming? || (!isFiat && (p.PSigning? || p.PBroadcasted?))
  }

  predicate PayoutFits(isFiat: bool, s: Status, p: Option<PayoutStatus>) {
    match s
    case PayoutPending => p.Some? && InFlight(isFiat, p.value)
    case Success => p == Some(PCleared)
    case Failed => p == Some(PFailed) || p == Some(PTimedOut)
    case Returned => p == Some(PReturned)
    case UnderReview => true
    case Rejected => true
    case Cancelled => true
    case _ => p.None?
  }

  /** The fee fund exists from PAYOUT_PENDING on, exactly when there is a fee. */
  function FundFor(w: Withdrawal): Option<FundStatus> {
    if w.terms.fee == 0 || w.payout.None? then None
    else
      match w.status
      case Success => Some(FundClear)
      case Failed => Some(FundCancelled)
      case Returned => Some(FundCancelled)
      case _ => Some(FundCreated)
  }

  predicate RowInv(w: Withdrawal) {
    && PayoutFits(w.terms.isFiat, w.status, w.payout) && w.feeFund == FundFor(w)
    && (w.status == Rejected && w.operator == Workflow ==> w.payout.None?)
  }

  ghost predicate Inv(w: Withdrawal, tb: Tb) {
    Ready(w.terms, tb.accounts) && RowInv(w) && tb.log == Books(w)
  }

  // ── Creation ──

  lemma FindFirst(log: seq<Transfer>, k: nat, id: TransferId)
    requires k < |log| && log[k].id == id && forall j :: 0 <= j < k ==> log[j].id != id
    ensures IndexOf(log, id) == k
  {
    assert IndexOf(log, id) <= k;
  }

  lemma Absent(log: seq<Transfer>, id: TransferId)
    requires forall j :: 0 <= j < |log| ==> log[j].id != id
    ensures IndexOf(log, id) == |log|
  {
  }

  /** A lock can be taken exactly once, and then resolved exactly once. */
  lemma LockFee(t: Terms, tb: Tb)
    requires tb.log == [NetLock(t, Pending)] && CanLock(t, tb.accounts)
    ensures ExecutePending(tb, {}, t.FeeId(), t.payable, t.clientAsset, t.fee, t.ledger)
         == Ok(tb.(log := [NetLock(t, Pending), FeeLock(t, Pending)]))
  {
    Absent(tb.log, t.FeeId());
    assert tb.log + [FeeLock(t, Pending)] == [NetLock(t, Pending), FeeLock(t, Pending)];
  }

  lemma ResolveNet(t: Terms, tb: Tb, phase: Phase)
    requires tb.log == Locks(t, Pending)
    ensures Resolve(tb, t.NetId(), t.net, phase) == Ok(tb.(log := tb.log[0 := NetLock(t, phase)]))
  {
    FindFirst(tb.log, 0, t.NetId());
  }

  lemma ResolveFee(t: Terms, tb: Tb, phase: Phase)
    requires tb.log == [NetLock(t, phase), FeeLock(t, Pending)]
    ensures Resolve(tb, t.FeeId(), t.fee, phase) == Ok(tb.(log := [NetLock(t, phase), FeeLock(t, phase)]))
  {
    FindFirst(tb.log, 1, t.FeeId());
    assert tb.log[1 := FeeLock(t, phase)] == [NetLock(t, phase), FeeLock(t, phase)];
  }

  /** Voiding both locks, as creation's handler and `releaseLock` do. */
  function VoidBoth(t: Terms, tb: Tb): Tb {
    var tb1 := VoidBestEffort(tb, t.NetId(), t.net);
    if t.fee > 0 then VoidBestEffort(tb1, t.FeeId(), t.fee) else tb1
  }

  lemma VoidOpenLocks(t: Terms, tb: Tb)
    requires tb.log == Locks(t, Pending)
    ensures VoidBoth(t, tb) == tb.(log := Locks(t, Voided))
  {
    ResolveNet(t, tb, Voided);
    if t.fee > 0 {
      ResolveFee(t, VoidBestEffort(tb, t.NetId(), t.net), Voided);
    }
  }

  /** Settled or voided locks do not move again. */
  lemma VoidClosedLocks(t: Terms, tb: Tb, phase: Phase)
    requires phase != Pending && (tb.log == Locks(t, phase) || (phase == Posted && tb.log == Settlement(t)))
    ensures VoidBoth(t, tb) == tb
  {
    FindFirst(tb.log, 0, t.NetId());
    if t.fee > 0 {
      FindFirst(tb.log, 1, t.FeeId());
    }
  }

  /** A new withdrawal holds exactly its net and its fee; a creation the database refuses leaves
      nothing held. */
  lemma CreateLocks(t: Terms, tb: Tb, dbOk: bool)
    requires tb.log == [] && CanLock(t, tb.accounts)
    ensures
      CreateWithdrawal(t, tb, {}, dbOk)
      == if dbOk then Stored(NewRow(t), tb.(log := Locks(t, Pending))) else NotCreated(tb.(log := Locks(t, Voided)))
  {
    var tb1 := tb.(log := [NetLock(t, Pending)]);
    assert tb.log + [NetLock(t, Pending)] == tb1.log;
    if t.fee > 0 {
      LockFee(t, tb1);
    }
    VoidOpenLocks(t, tb.(log := Locks(t, Pending)));
  }

  /** A number that was drawn before and rolled back: the ledger answers "exists", so the new
      withdrawal is stored although its locks are void. */
  lemma ReusedNumberHoldsNothing(t: Terms, tb: Tb, capped: set<nat>)
    requires tb.log == Locks(t, Voided)
    ensures CreateWithdrawal(t, tb, capped, true) == Stored(NewRow(t), tb)
  {
    FindFirst(tb.log, 0, t.NetId());
    if t.fee > 0 {
      FindFirst(tb.log, 1, t.FeeId());
    }
  }

  // ── Settlement ──

  function SettledRow(w: Withdrawal): Withdrawal {
    SetFund(w, FundClear).(status := Success, operator := Workflow, payout := Some(PCleared))
  }

  lemma PostLocks(t: Terms, tb: Tb)
    requires tb.log == Locks(t, Pending)
    ensures
      var r := PostPending(tb, t.NetId(), t.net);
      && r.Ok?
      && (t.fee == 0 ==> r.value == tb.(log := Locks(t, Posted)))
      && (t.fee > 0 ==> PostPending(r.value, t.FeeId(), t.fee) == Ok(tb.(log := Locks(t, Posted))))
  {
    ResolveNet(t, tb, Posted);
    if t.fee > 0 {
      ResolveFee(t, PostPending(tb, t.NetId(), t.net).value, Posted);
    }
  }

  lemma CollectFee(t: Terms, tb: Tb)
    requires t.fee > 0 && tb.log == Locks(t, Posted)
    ensures
      var r := Execute(tb, t.FirmId(), t.firmAsset, t.firmFee, t.fee, t.ledger);
      if CanCollect(t, tb.accounts) then r == Ok(tb.(log := Settlement(t))) else r.Err?
  {
    Absent(tb.log, t.FirmId());
    assert Locks(t, Posted) + [FirmFee(t)] == Settlement(t);
  }

  /** A confirmed payout settles the withdrawal exactly when the firm's fee can be booked; if it
      cannot, both locks are already spent and the row stays where it was. */
  lemma FinalizeSettles(w: Withdrawal, tb: Tb)
    requires w.status == PayoutPending && w.payout == Some(PConfirmed) && tb.log == Locks(w.terms, Pending)
    ensures
      Finalize(w, tb)
      == if CanCollect(w.terms, tb.accounts) then Outcome(true, SettledRow(w), tb.(log := Settlement(w.terms)))
         else Outcome(false, w, tb.(log := Locks(w.terms, Posted)))
  {
    PostLocks(w.terms, tb);
    if w.terms.fee > 0 {
      CollectFee(w.terms, tb.(log := Locks(w.terms, Posted)));
    }
  }

  lemma FinalizeSkips(w: Withdrawal, tb: Tb)
    requires w.status != PayoutPending
    ensures Finalize(w, tb) == Outcome(true, w, tb)
  {
  }

  /** After such a half settlement no repair call helps: posting the net lock again is refused. */
  lemma HalfSettledStays(w: Withdrawal, tb: Tb)
    requires w.status == PayoutPending && w.payout == Some(PConfirmed) && tb.log == Locks(w.terms, Posted)
    ensures Step(w, tb, ReCloseout) == Outcome(false, w, tb)
  {
    FindFirst(tb.log, 0, w.terms.NetId());
  }

  // ── Every call keeps the invariant ──

  lemma ReleaseKeepsInv(w: Withdrawal, tb: Tb, prior: Withdrawal)
    requires Ready(w.terms, tb.accounts) && w.terms == prior.terms && tb.log == Books(prior)
    requires PayoutFits(w.terms.isFiat, w.status, w.payout) && w.feeFund.Some? == (w.terms.fee > 0 && w.payout.Some?)
    requires match w.status
             case Failed => LockPhase(prior) != Posted
             case Returned => LockPhase(prior) == Posted
             case Rejected => w.operator == Workflow && w.payout.None? && LockPhase(prior) != Posted
             case _ => false
    ensures var o := ReleaseLock(w, tb); o.ok && Inv(o.w, o.tb)
  {
    assert ReleaseLock(w, tb) == Outcome(true, SetFund(w, FundCancelled), VoidBoth(w.terms, tb));
    if LockPhase(prior) == Pending {
      VoidOpenLocks(w.terms, tb);
    } else {
      VoidClosedLocks(w.terms, tb, LockPhase(prior));
    }
  }

  lemma CompensateKeepsInv(w: Withdrawal, tb: Tb, prior: Withdrawal, a: Action, target: Status)
    requires Inv(prior, tb) && w.terms == prior.terms && w.status == prior.status && w.operator == prior.operator
    requires w.feeFund == prior.feeFund && prior.payout.Some? && w.payout.Some?
    requires (a == Fail && target == Failed && (w.payout == Some(PFailed) || w.payout == Some(PTimedOut)))
          || (a == Return && target == Returned && w.payout == Some(PReturned))
    requires prior.payout == w.payout || (target == Failed && InFlight(w.terms.isFiat, prior.payout.value))
          || (target == Returned && (prior.payout == Some(PConfirmed) || prior.payout == Some(PCleared)))
    ensures var o := Compensate(w, tb, a, target); Inv(o.w, o.tb)
    ensures
      var o := Compensate(w, tb, a, target);
      o.ok <==> w.status in {target, if a == Fail then PayoutPending else Success}
  {
    if w.status == target {
      ReleaseKeepsInv(w, tb, prior);
    } else if Move(w, a, Workflow).Some? {
      ReleaseKeepsInv(Move(w, a, Workflow).value, tb, prior);
    }
  }

  lemma PayoutKeepsInv(w: Withdrawal, tb: Tb, act: PayoutAction)
    requires Inv(w, tb) && w.payout.Some? && act != PClear
        && PayoutTransition(w.terms.isFiat, w.payout.value, act).Some?
    ensures
      var o := AfterPayout(w, tb, PayoutTransition(w.terms.isFiat, w.payout.value, act).value);
      Inv(o.w, o.tb)
  {
    hide Finalize, Compensate;
    var next := PayoutTransition(w.terms.isFiat, w.payout.value, act).value;
    var w1 := w.(payout := Some(next));
    match next
    case PConfirmed =>
      if w.status == PayoutPending {
        FinalizeSettles(w1, tb);
      } else {
        FinalizeSkips(w1, tb);
      }
    case PFailed => CompensateKeepsInv(w1, tb, w, Fail, Failed);
    case PTimedOut => CompensateKeepsInv(w1, tb, w, Fail, Failed);
    case PReturned => CompensateKeepsInv(w1, tb, w, Return, Returned);
    case _ =>
  }

  lemma RepairKeepsInv(w: Withdrawal, tb: Tb, op: Op)
    requires Inv(w, tb) && (op == ReCloseout || op == ReCompensate)
    ensures var o := Step(w, tb, op); Inv(o.w, o.tb)
  {
    if op == ReCompensate && w.payout.Some? {
      if w.payout == Some(PReturned) {
        CompensateKeepsInv(w, tb, w, Return, Returned);
      } else if w.payout == Some(PFailed) || w.payout == Some(PTimedOut) {
        CompensateKeepsInv(w, tb, w, Fail, Failed);
      }
    }
  }

  /** The calls that change the row only. */
  lemma ScreenKeepsInv(w: Withdrawal, tb: Tb)
    requires Inv(w, tb)
    ensures Inv(CheckScreenPass(w), tb)
  {
  }

  lemma ApprovalKeepsInv(w: Withdrawal, tb: Tb, approved: bool)
    requires Inv(w, tb)
    ensures var o := AfterApproval(w, tb, approved); o.ok && Inv(o.w, o.tb)
  {
    if w.status == PendingApproval {
      if approved {
        ScreenKeepsInv(InitializeScreen(w.(status := PendingCompliance, operator := Workflow)), tb);
      } else {
        ReleaseKeepsInv(w.(status := Rejected, operator := Workflow), tb, w);
      }
    }
  }

  lemma OnCreatedKeepsInv(w: Withdrawal, tb: Tb, needsApproval: bool)
    requires Inv(w, tb)
    ensures AfterCreated(w, needsApproval).Some? && Inv(AfterCreated(w, needsApproval).value, tb)
  {
    if w.status == Created && !needsApproval {
      ScreenKeepsInv(InitializeScreen(Move(w, Check, Workflow).value), tb);
    }
  }

  lemma AdminKeepsInv(w: Withdrawal, tb: Tb, a: Action)
    requires Inv(w, tb) && AdminStep(w, a).Some?
    ensures Inv(AdminStep(w, a).value, tb)
  {
  }

  lemma StepKeepsInv(w: Withdrawal, tb: Tb, op: Op)
    requires Inv(w, tb)
    ensures var o := Step(w, tb, op); Inv(o.w, o.tb) && o.w.terms == w.terms
  {
    TermsStay(w, tb, op);
    match op
    case OnCreated(needsApproval) => OnCreatedKeepsInv(w, tb, needsApproval);
    case ApprovalDecided(approved) => ApprovalKeepsInv(w, tb, approved);
    case SetKyt(gate) => ScreenKeepsInv(w.(preKyt := gate), tb);
    case SetTravelRule(gate) => ScreenKeepsInv(w.(travelRule := gate), tb);
    case AdminUpdate(action) => if AdminStep(w, action).Some? { AdminKeepsInv(w, tb, action); }
    case PayoutUpdate(act) =>
      if w.payout.Some? && act != PClear && PayoutTransition(w.terms.isFiat, w.payout.value, act).Some? {
        PayoutKeepsInv(w, tb, act);
      }
    case ReCloseout => RepairKeepsInv(w, tb, op);
    case ReCompensate => RepairKeepsInv(w, tb, op);
  }

  lemma TermsStay(w: Withdrawal, tb: Tb, op: Op)
    ensures Step(w, tb, op).w.terms == w.terms
  {
  }

  /** Main invariant: after any calls in any order, the ledger holds exactly what the row says. */
  lemma {:induction false} RunKeepsInv(w: Withdrawal, tb: Tb, ops: seq<Op>)
    requires Inv(w, tb)
    ensures var o := Run(w, tb, ops); Inv(o.w, o.tb) && o.w.terms == w.terms
    decreases |ops|
  {
    if ops != [] {
      StepKeepsInv(w, tb, ops[0]);
      RunKeepsInv(Step(w, tb, ops[0]).w, Step(w, tb, ops[0]).tb, ops[1..]);
    }
  }

  lemma CreatedRunKeepsInv(t: Terms, tb: Tb, ops: seq<Op>)
    requires tb.log == [] && Ready(t, tb.accounts)
    ensures CreateWithdrawal(t, tb, {}, true).Stored?
    ensures var c := CreateWithdrawal(t, tb, {}, true); var o := Run(c.w, c.tb, ops); Inv(o.w, o.tb) && o.w.terms == t
  {
    CreateLocks(t, tb, true);
    RunKeepsInv(NewRow(t), tb.(log := Locks(t, Pending)), ops);
  }
}
