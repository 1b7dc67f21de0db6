/** A customer withdrawal: its status machine, its payout, its fee fund, and the customer funds it
    locks in the ledger. Every function is one call of the workflow, with the database row and
    the ledger it leaves behind. */
module WithdrawModel {
  import opened Prelude
  import opened Ledger

  // ── Status machines ──

  datatype Status =
    | Created | PendingApproval | PendingCompliance | UnderReview | PayoutPending
    | Success | Failed | Rejected | Cancelled | Returned

  datatype Action =
    | RequireApproval | GateApprove | Check | Flag | Reject | Approve | Cancel | Succeed | Fail | Return

  function Transition(s: Status, a: Action): Option<Status> {
    match (s, a)
    case (Created, RequireApproval) => Some(PendingApproval)
    case (Created, Check) => Some(PendingCompliance)
    case (Created, Cancel) => Some(Cancelled)
    case (PendingApproval, GateApprove) => Some(PendingCompliance)
    case (PendingApproval, Reject) => Some(Rejected)
    case (PendingApproval, Cancel) => Some(Cancelled)
    case (PendingCompliance, Flag) => Some(UnderReview)
    case (PendingCompliance, Reject) => Some(Rejected)
    case (PendingCompliance, Approve) => Some(PayoutPending)
    case (PendingCompliance, Cancel) => Some(Cancelled)
    case (UnderReview, Approve) => Some(PayoutPending)
    case (UnderReview, Reject) => Some(Rejected)
    case (UnderReview, Cancel) => Some(Cancelled)
    case (PayoutPending, Flag) => Some(UnderReview)
    case (PayoutPending, Reject) => Some(Rejected)
    case (PayoutPending, Succeed) => Some(Success)
    case (PayoutPending, Fail) => Some(Failed)
    case (PayoutPending, Approve) => Some(PayoutPending)
    case (Success, Return) => Some(Returned)
    case (Success, Succeed) => Some(Success)
    case (Failed, Fail) => Some(Failed)
    case _ => None
  }

  datatype PayoutStatus =
    | PCreated | PSigning | PBroadcasted | PConfirming | PConfirmed | PCleared | PFailed | PTimedOut | PReturned

  datatype PayoutAction =
    | PSign | PBroadcast | PSignFail | PSeenInMempool | PDrop | PTimeout | PConfirm | PFail | PReorg | PClear
    | PSubmit | PReturn

  function PayoutTransition(isFiat: bool, s: PayoutStatus, a: PayoutAction): Option<PayoutStatus> {
    if isFiat then
      match (s, a)
      case (PCreated, PSubmit) => Some(PConfirming)
      case (PConfirming, PConfirm) => Some(PConfirmed)
      case (PConfirming, PFail) => Some(PFailed)
      case (PConfirming, PTimeout) => Some(PTimedOut)
      case (PConfirmed, PClear) => Some(PCleared)
      case (PConfirmed, PReturn) => Some(PReturned)
      case (PCleared, PReturn) => Some(PReturned)
      case _ => None
    else
      match (s, a)
      case (PCreated, PSign) => Some(PSigning)
      case (PSigning, PBroadcast) => Some(PBroadcasted)
      case (PSigning, PSignFail) => Some(PFailed)
      case (PBroadcasted, PSeenInMempool) => Some(PConfirming)
      case (PBroadcasted, PDrop) => Some(PFailed)
      case (PBroadcasted, PTimeout) => Some(PTimedOut)
      case (PConfirming, PConfirm) => Some(PConfirmed)
      case (PConfirming, PTimeout) => Some(PTimedOut)
      case (PConfirming, PFail) => Some(PFailed)
      case (PConfirming, PReorg) => Some(PBroadcasted)
      case (PConfirmed, PClear) => Some(PCleared)
      case _ => None
  }

  // ── The withdrawal row ──

  datatype Gate = Unset | GatePending | Passed | NotRequired | Refused

  datatype FundStatus = FundCreated | FundClear | FundCancelled

  /** Who made the last status change, from the row's status history. */
  datatype Operator = Workflow | Admin

  /** Accounts and amounts are fixed at creation; amounts in minor units. */
  datatype Terms = Terms(
    no: string, isFiat: bool, net: nat, fee: nat, ledger: nat,
    payable: nat, clientAsset: nat, firmAsset: nat, firmFee: nat)
  {
    function Src(): Source { Source(WithdrawKind, no) }
    function NetId(): TransferId { TransferId(Src(), WithdrawLockNet, 0) }
    function FeeId(): TransferId { TransferId(Src(), WithdrawLockFee, 0) }
    function FirmId(): TransferId { TransferId(Src(), WithdrawFeeFirm, 0) }
  }

  datatype Withdrawal = Withdrawal(
    terms: Terms, status: Status, operator: Operator, preKyt: Gate, travelRule: Gate,
    payout: Option<PayoutStatus>, feeFund: Option<FundStatus>)

  datatype Outcome = Outcome(ok: bool, w: Withdrawal, tb: Tb)

  // ── Creation ──

  datatype Creation = Stored(w: Withdrawal, tb: Tb) | NotCreated(tb: Tb)

  /** Locks net, then fee when there is one, and stores the row. If anything throws after a lock
      was taken, the locks are voided again. `capped` are the accounts opened with the no-overdraft
      flag; `dbOk` says whether the database accepts the rows. */
  function CreateWithdrawal(t: Terms, tb: Tb, capped: set<nat>, dbOk: bool): Creation {
    match ExecutePending(tb, capped, t.NetId(), t.payable, t.clientAsset, t.net, t.ledger)
    case Err(_) => NotCreated(tb)
    case Ok(tb1) =>
      if t.fee == 0 then
        if dbOk then Stored(NewRow(t), tb1) else NotCreated(VoidBestEffort(tb1, t.NetId(), t.net))
      else
        match ExecutePending(tb1, capped, t.FeeId(), t.payable, t.clientAsset, t.fee, t.ledger)
        case Err(_) => NotCreated(VoidBestEffort(tb1, t.NetId(), t.net))
        case Ok(tb2) =>
          if dbOk then Stored(NewRow(t), tb2)
          else NotCreated(VoidBestEffort(VoidBestEffort(tb2, t.NetId(), t.net), t.FeeId(), t.fee))
  }

  function NewRow(t: Terms): Withdrawal {
    var gate := if t.isFiat then Unset else GatePending;
    Withdrawal(t, Created, Workflow, gate, gate, None, None)
  }

  // ── Workflow pieces ──

  /** `updateStatus`: the transition must exist. */
  function Move(w: Withdrawal, a: Action, who: Operator): Option<Withdrawal> {
    var next := Transition(w.status, a);
    if next.None? then None else Some(w.(status := next.value, operator := who))
  }

  function SetFund(w: Withdrawal, s: FundStatus): Withdrawal {
    if w.feeFund.Some? then w.(feeFund := Some(s)) else w
  }

  /** Voids both locks, whatever the answer, and cancels the fee fund. */
  function ReleaseLock(w: Withdrawal, tb: Tb): Outcome {
    var t := w.terms;
    var tb1 := VoidBestEffort(tb, t.NetId(), t.net);
    var tb2 := if t.fee > 0 then VoidBestEffort(tb1, t.FeeId(), t.fee) else tb1;
    Outcome(true, SetFund(w, FundCancelled), tb2)
  }

  function InitializeScreen(w: Withdrawal): Withdrawal {
    w.(preKyt := GatePending, travelRule := if w.terms.isFiat then NotRequired else GatePending)
  }

  predicate GatesPass(w: Withdrawal) {
    w.preKyt == Passed && (w.travelRule == Passed || w.travelRule == NotRequired)
  }

  /** When compliance is pending and both gates passed: approve, open the payout and the fee fund. */
  function CheckScreenPass(w: Withdrawal): Withdrawal {
    if w.status == PendingCompliance && GatesPass(w) then
      w.(status := PayoutPending, operator := Workflow, payout := Some(PCreated),
         feeFund := if w.terms.fee > 0 then Some(FundCreated) else None)
    else w
  }

  /** Posts the locks, collects the firm's fee, and settles. A throw on the way leaves the row as
      it was and the ledger with what had gone through. */
  function Finalize(w: Withdrawal, tb: Tb): Outcome {
    var t := w.terms;
    if w.status != PayoutPending then Outcome(true, w, tb)
    else
      match PostPending(tb, t.NetId(), t.net)
      case Err(_) => Outcome(false, w, tb)
      case Ok(tb1) =>
        if t.fee == 0 then Settle(w, tb1)
        else
          match PostPending(tb1, t.FeeId(), t.fee)
          case Err(_) => Outcome(false, w, tb1)
          case Ok(tb2) =>
            match Execute(tb2, t.FirmId(), t.firmAsset, t.firmFee, t.fee, t.ledger)
            case Err(_) => Outcome(false, w, tb2)
            case Ok(tb3) => Settle(w, tb3)
  }

  function Settle(w: Withdrawal, tb: Tb): Outcome {
    var settled := w.payout == Some(PConfirmed) || w.payout == Some(PCleared) || w.payout == None;
    if !settled then Outcome(false, SetFund(w, FundClear), tb)
    else
      var w1 := SetFund(w, FundClear).(status := Success, operator := Workflow);
      Outcome(true, if w1.payout == Some(PConfirmed) then w1.(payout := Some(PCleared)) else w1, tb)
  }

  /** A terminal payout failure: move the withdrawal unless it is there already, then unlock. */
  function Compensate(w: Withdrawal, tb: Tb, a: Action, target: Status): Outcome {
    if w.status == target then ReleaseLock(w, tb)
    else
      var moved := Move(w, a, Workflow);
      if moved.None? then Outcome(false, w, tb) else ReleaseLock(moved.value, tb)
  }

  // ── The calls ──

  datatype Op =
    | OnCreated(needsApproval: bool)
    | ApprovalDecided(approved: bool)
    | SetKyt(gate: Gate)
    | SetTravelRule(gate: Gate)
    | AdminUpdate(action: Action)
    | PayoutUpdate(act: PayoutAction)
    | ReCloseout
    | ReCompensate

  function AfterCreated(w: Withdrawal, needsApproval: bool): Option<Withdrawal> {
    if w.status != Created then Some(w)
    else if needsApproval then Move(w, RequireApproval, Workflow)
    else
      var moved := Move(w, Check, Workflow);
      if moved.None? then None else Some(CheckScreenPass(InitializeScreen(moved.value)))
  }

  function AfterApproval(w: Withdrawal, tb: Tb, approved: bool): Outcome {
    if w.status != PendingApproval then Outcome(true, w, tb)
    else if approved then
      Outcome(true, CheckScreenPass(InitializeScreen(w.(status := PendingCompliance, operator := Workflow))), tb)
    else
      ReleaseLock(w.(status := Rejected, operator := Workflow), tb)
  }

  /** The admin endpoint offers check, flag, reject and cancel, and may not start the payout or
      settle. It does nothing but change the status. */
  function AdminStep(w: Withdrawal, a: Action): Option<Withdrawal> {
    if a !in {Check, Flag, Reject, Cancel} then None
    else
      var moved := Move(w, a, Admin);
      if moved.Some? && moved.value.status in {PayoutPending, Success, Failed, Returned} then None else moved
  }

  /** The payout's own update commits first; its event handler may then throw. */
  function AfterPayout(w: Withdrawal, tb: Tb, next: PayoutStatus): Outcome {
    var w1 := w.(payout := Some(next));
    match next
    case PConfirmed => Finalize(w1, tb)
    case PFailed => Compensate(w1, tb, Fail, Failed)
    case PTimedOut => Compensate(w1, tb, Fail, Failed)
    case PReturned => Compensate(w1, tb, Return, Returned)
    case _ => Outcome(true, w1, tb)
  }

  function Lift(w: Withdrawal, r: Option<Withdrawal>, tb: Tb): Outcome {
    if r.None? then Outcome(false, w, tb) else Outcome(true, r.value, tb)
  }

  function Step(w: Withdrawal, tb: Tb, op: Op): Outcome {
    match op
    case OnCreated(needsApproval) => Lift(w, AfterCreated(w, needsApproval), tb)
    case ApprovalDecided(approved) => AfterApproval(w, tb, approved)
    case SetKyt(gate) => Outcome(true, CheckScreenPass(w.(preKyt := gate)), tb)
    case SetTravelRule(gate) => Outcome(true, CheckScreenPass(w.(travelRule := gate)), tb)
    case AdminUpdate(action) => Lift(w, AdminStep(w, action), tb)
    case PayoutUpdate(act) =>
      if w.payout.None? || act == PClear then Outcome(false, w, tb)
      else
        var next := PayoutTransition(w.terms.isFiat, w.payout.value, act);
        if next.None? then Outcome(false, w, tb) else AfterPayout(w, tb, next.value)
    case ReCloseout =>
      if w.payout == Some(PCleared) && w.status == Success then Outcome(true, w, tb)
      else if w.payout != Some(PConfirmed) || w.status != PayoutPending then Outcome(false, w, tb)
      else Finalize(w, tb)
    case ReCompensate =>
      if w.payout == Some(PReturned) then Compensate(w, tb, Return, Returned)
      else if w.payout == Some(PFailed) || w.payout == Some(PTimedOut) then Compensate(w, tb, Fail, Failed)
      else Outcome(false, w, tb)
  }

  function Run(w: Withdrawal, tb: Tb, ops: seq<Op>): Outcome
    decreases |ops|
  {
    if ops == [] then Outcome(true, w, tb)
    else
      var o := Step(w, tb, ops[0]);
      Run(o.w, o.tb, ops[1..])
  }
}
