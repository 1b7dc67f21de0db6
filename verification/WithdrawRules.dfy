/** What each call does to a withdrawal in order, case by case, and what a run cannot do without: a
    declined withdrawal is never paid out, nor is one whose gates were never passed. */
module WithdrawRules {
  import opened Prelude
  import opened Ledger
  import opened WithdrawModel
  import opened WithdrawInvariant

  // ── Approval ──

  /** A new withdrawal waits for approval, or goes to screening with its gates open. */
  lemma CreatedIsRouted(w: Withdrawal, tb: Tb, needsApproval: bool)
    requires Inv(w, tb) && w.status == Created
    ensures Step(w, tb, OnCreated(needsApproval))
         == Outcome(true,
              if needsApproval then w.(status := PendingApproval, operator := Workflow)
              else w.(status := PendingCompliance, operator := Workflow, preKyt := GatePending,
                      travelRule := if w.terms.isFiat then NotRequired else GatePending),
              tb)
    ensures tb.log == Locks(w.terms, Pending)
  {
  }

  /** Approved, it goes to screening and stays locked. */
  lemma ApprovedIsScreened(w: Withdrawal, tb: Tb)
    requires Inv(w, tb) && w.status == PendingApproval
    ensures Step(w, tb, ApprovalDecided(true))
         == Outcome(true,
              w.(status := PendingCompliance, operator := Workflow, preKyt := GatePending,
                 travelRule := if w.terms.isFiat then NotRequired else GatePending),
              tb)
    ensures tb.log == Locks(w.terms, Pending)
  {
  }

  /** Declined, it is rejected, and both locks are voided. */
  lemma DeclinedIsRejected(w: Withdrawal, tb: Tb)
    requires Inv(w, tb) && w.status == PendingApproval
    ensures Step(w, tb, ApprovalDecided(false))
         == Outcome(true, w.(status := Rejected, operator := Workflow), tb.(log := Locks(w.terms, Voided)))
  {
    Unlocks(w.(status := Rejected, operator := Workflow), tb);
  }

  lemma Unlocks(w: Withdrawal, tb: Tb)
    requires tb.log == Locks(w.terms, Pending)
    ensures ReleaseLock(w, tb) == Outcome(true, SetFund(w, FundCancelled), tb.(log := Locks(w.terms, Voided)))
  {
    VoidOpenLocks(w.terms, tb);
  }

  /** Rejected by the workflow, nothing held. */
  ghost predicate Declined(w: Withdrawal, tb: Tb) {
    && w.status == Rejected && w.operator == Workflow && w.payout.None? && w.feeFund.None?
    && tb.log == Locks(w.terms, Voided)
  }

  lemma DeclinedStep(w: Withdrawal, tb: Tb, op: Op)
    requires Declined(w, tb)
    ensures var o := Step(w, tb, op); Declined(o.w, o.tb) && o.tb == tb && o.w.terms == w.terms
  {
  }

  /** Whatever is called afterwards, a declined withdrawal stays rejected: it never reaches a payout,
      and its locks stay voided. */
  lemma {:induction false} DeclinedForGood(w: Withdrawal, tb: Tb, ops: seq<Op>)
    requires Inv(w, tb) && w.status == PendingApproval
    ensures
      var o := Step(w, tb, ApprovalDecided(false));
      var z := Run(o.w, o.tb, ops);
      z.w.status == Rejected && z.w.operator == Workflow && z.w.payout.None? && z.tb.log == Locks(w.terms, Voided)
  {
    DeclinedIsRejected(w, tb);
    hide Step;
    DeclinedRun(w.(status := Rejected, operator := Workflow), tb.(log := Locks(w.terms, Voided)), ops);
  }

  lemma {:induction false} DeclinedRun(w: Withdrawal, tb: Tb, ops: seq<Op>)
    requires Declined(w, tb)
    ensures var z := Run(w, tb, ops); Declined(z.w, z.tb) && z.w.terms == w.terms
    decreases |ops|
  {
    if ops != [] {
      DeclinedStep(w, tb, ops[0]);
      hide Step, Declined;
      DeclinedRun(Step(w, tb, ops[0]).w, Step(w, tb, ops[0]).tb, ops[1..]);
    }
  }

  /** A decision on anything else is ignored. */
  lemma LateDecisionIsIgnored(w: Withdrawal, tb: Tb, approved: bool)
    requires w.status != PendingApproval
    ensures Step(w, tb, ApprovalDecided(approved)) == Outcome(true, w, tb)
  {
  }

  /** Nor is a withdrawal routed twice. */
  lemma LateCreationIsIgnored(w: Withdrawal, tb: Tb, needsApproval: bool)
    requires w.status != Created
    ensures Step(w, tb, OnCreated(needsApproval)) == Outcome(true, w, tb)
  {
  }

  // ── Gates ──

  /** The payout is opened by the gate that is passed last, and by no other: KYT passed, and the
      travel rule passed or not required. */
  lemma KytOpensPayoutIff(w: Withdrawal, tb: Tb, gate: Gate)
    requires Inv(w, tb)
    ensures Step(w, tb, SetKyt(gate))
         == Outcome(true,
              if w.status == PendingCompliance && gate == Passed && w.travelRule in {Passed, NotRequired}
              then w.(preKyt := gate, status := PayoutPending, operator := Workflow, payout := Some(PCreated),
                      feeFund := if w.terms.fee > 0 then Some(FundCreated) else None)
              else w.(preKyt := gate),
              tb)
  {
  }

  lemma TravelRuleOpensPayoutIff(w: Withdrawal, tb: Tb, gate: Gate)
    requires Inv(w, tb)
    ensures Step(w, tb, SetTravelRule(gate))
         == Outcome(true,
              if w.status == PendingCompliance && w.preKyt == Passed && gate in {Passed, NotRequired}
              then w.(travelRule := gate, status := PayoutPending, operator := Workflow, payout := Some(PCreated),
                      feeFund := if w.terms.fee > 0 then Some(FundCreated) else None)
              else w.(travelRule := gate),
              tb)
  {
  }

  /** Before anything was paid: no payout yet, and never any after a closure. */
  predicate Unpaid(w: Withdrawal) {
    w.payout.None? && w.status !in {PayoutPending, Success, Failed, Returned}
  }

  predicate PassesKyt(op: Op) { op == SetKyt(Passed) }

  predicate PassesTravelRule(op: Op) { op == SetTravelRule(Passed) || op == SetTravelRule(NotRequired) }

  lemma StepWithoutKyt(w: Withdrawal, tb: Tb, op: Op)
    requires Unpaid(w) && w.preKyt != Passed && !PassesKyt(op)
    ensures Unpaid(Step(w, tb, op).w) && Step(w, tb, op).w.preKyt != Passed
  {
    hide VoidBestEffort;
  }

  lemma StepWithoutTravelRule(w: Withdrawal, tb: Tb, op: Op)
    requires !w.terms.isFiat && Unpaid(w) && w.travelRule !in {Passed, NotRequired} && !PassesTravelRule(op)
    ensures
      var o := Step(w, tb, op);
      Unpaid(o.w) && o.w.travelRule !in {Passed, NotRequired} && o.w.terms == w.terms
  {
    hide VoidBestEffort;
  }

  /** No run pays a withdrawal out whose KYT gate it never passed. */
  lemma {:induction false} NoPayoutWithoutKyt(w: Withdrawal, tb: Tb, ops: seq<Op>)
    requires Unpaid(w) && w.preKyt != Passed && forall op :: op in ops ==> op != SetKyt(Passed)
    ensures var z := Run(w, tb, ops).w; z.payout.None? && z.status !in {PayoutPending, Success, Failed, Returned}
    decreases |ops|
  {
    if ops != [] {
      assert ops[0] in ops && forall op :: op in ops[1..] ==> op in ops;
      StepWithoutKyt(w, tb, ops[0]);
      hide Step;
      NoPayoutWithoutKyt(Step(w, tb, ops[0]).w, Step(w, tb, ops[0]).tb, ops[1..]);
    }
  }

  /** Nor a crypto withdrawal whose travel rule was neither passed nor waived. */
  lemma {:induction false} NoPayoutWithoutTravelRule(w: Withdrawal, tb: Tb, ops: seq<Op>)
    requires !w.terms.isFiat && Unpaid(w) && w.travelRule !in {Passed, NotRequired}
    requires forall op :: op in ops ==> op != SetTravelRule(Passed) && op != SetTravelRule(NotRequired)
    ensures var z := Run(w, tb, ops).w; z.payout.None? && z.status !in {PayoutPending, Success, Failed, Returned}
    decreases |ops|
  {
    if ops != [] {
      assert ops[0] in ops && forall op :: op in ops[1..] ==> op in ops;
      StepWithoutTravelRule(w, tb, ops[0]);
      hide Step;
      NoPayoutWithoutTravelRule(Step(w, tb, ops[0]).w, Step(w, tb, ops[0]).tb, ops[1..]);
    }
  }

  /** So a withdrawal just created needs both. */
  lemma CreatedNeedsBothGates(t: Terms, tb: Tb, ops: seq<Op>)
    requires Run(NewRow(t), tb, ops).w.status in {PayoutPending, Success, Failed, Returned}
    ensures SetKyt(Passed) in ops
    ensures !t.isFiat ==> SetTravelRule(Passed) in ops || SetTravelRule(NotRequired) in ops
  {
    if SetKyt(Passed) !in ops {
      NoPayoutWithoutKyt(NewRow(t), tb, ops);
    }
    if !t.isFiat && SetTravelRule(Passed) !in ops && SetTravelRule(NotRequired) !in ops {
      NoPayoutWithoutTravelRule(NewRow(t), tb, ops);
    }
  }

  // ── Administrators ──

  /** What the status endpoint accepts: check, flag, reject and cancel, in these statuses. */
  const ADMIN_MOVES: map<(Status, Action), Status> := map[
    (Created, Check) := PendingCompliance, (Created, Cancel) := Cancelled,
    (PendingApproval, Reject) := Rejected, (PendingApproval, Cancel) := Cancelled,
    (PendingCompliance, Flag) := UnderReview, (PendingCompliance, Reject) := Rejected,
    (PendingCompliance, Cancel) := Cancelled,
    (UnderReview, Reject) := Rejected, (UnderReview, Cancel) := Cancelled,
    (PayoutPending, Flag) := UnderReview, (PayoutPending, Reject) := Rejected]

  /** An administrator changes the status and nothing else, and the ledger never. */
  lemma AdminMoves(w: Withdrawal, tb: Tb, a: Action)
    ensures Step(w, tb, AdminUpdate(a))
         == if (w.status, a) in ADMIN_MOVES
            then Outcome(true, w.(status := ADMIN_MOVES[(w.status, a)], operator := Admin), tb)
            else Outcome(false, w, tb)
  {
  }

  // ── The payout ──

  /** Steps of a payout under way that neither settle nor fail it. */
  const PAYOUT_HOPS: map<(bool, PayoutStatus, PayoutAction), PayoutStatus> := map[
    (true, PCreated, PSubmit) := PConfirming,
    (false, PCreated, PSign) := PSigning, (false, PSigning, PBroadcast) := PBroadcasted,
    (false, PBroadcasted, PSeenInMempool) := PConfirming, (false, PConfirming, PReorg) := PBroadcasted]

  /** And those that fail it. */
  const PAYOUT_FAILURES: map<(bool, PayoutStatus, PayoutAction), PayoutStatus> := map[
    (true, PConfirming, PFail) := PFailed, (true, PConfirming, PTimeout) := PTimedOut,
    (false, PSigning, PSignFail) := PFailed, (false, PBroadcasted, PDrop) := PFailed,
    (false, PBroadcasted, PTimeout) := PTimedOut, (false, PConfirming, PTimeout) := PTimedOut,
    (false, PConfirming, PFail) := PFailed]

  /** A withdrawal being paid out: an action moves the payout on, fails it and frees both locks, or
      confirms it and settles; any other is refused. */
  lemma PayoutMoves(w: Withdrawal, tb: Tb, act: PayoutAction)
    requires Inv(w, tb) && w.status == PayoutPending
    ensures w.payout.Some?
    ensures
      var key := (w.terms.isFiat, w.payout.value, act);
      Step(w, tb, PayoutUpdate(act))
      == if key in PAYOUT_HOPS then Outcome(true, w.(payout := Some(PAYOUT_HOPS[key])), tb)
         else if key in PAYOUT_FAILURES then
           Outcome(true,
             w.(payout := Some(PAYOUT_FAILURES[key]), status := Failed, operator := Workflow,
                feeFund := if w.terms.fee > 0 then Some(FundCancelled) else None),
             tb.(log := Locks(w.terms, Voided)))
         else if w.payout.value == PConfirming && act == PConfirm then
           Outcome(true,
             w.(payout := Some(PCleared), status := Success, operator := Workflow,
                feeFund := if w.terms.fee > 0 then Some(FundClear) else None),
             tb.(log := Settlement(w.terms)))
         else Outcome(false, w, tb)
  {
    PayoutFacts(w, tb);
    hide Step, Inv, Settlement, Locks, PAYOUT_HOPS, PAYOUT_FAILURES;
    var key := (w.terms.isFiat, w.payout.value, act);
    if key in PAYOUT_HOPS {
      PayoutHops(w, tb, act);
    } else if key in PAYOUT_FAILURES {
      PayoutFails(w, tb, act);
    } else if w.payout.value == PConfirming && act == PConfirm {
      PayoutConfirms(w, tb);
    } else {
      PayoutRefuses(w, tb, act);
    }
  }

  lemma PayoutFacts(w: Withdrawal, tb: Tb)
    requires Inv(w, tb) && w.status == PayoutPending
    ensures w.payout.Some? && InFlight(w.terms.isFiat, w.payout.value) && tb.log == Locks(w.terms, Pending)
    ensures CanCollect(w.terms, tb.accounts) && w.feeFund == if w.terms.fee > 0 then Some(FundCreated) else None
  {
  }

  lemma PayoutHops(w: Withdrawal, tb: Tb, act: PayoutAction)
    requires w.payout.Some? && (w.terms.isFiat, w.payout.value, act) in PAYOUT_HOPS
    ensures Step(w, tb, PayoutUpdate(act))
         == Outcome(true, w.(payout := Some(PAYOUT_HOPS[(w.terms.isFiat, w.payout.value, act)])), tb)
  {
    hide Finalize, ReleaseLock;
  }

  lemma PayoutFails(w: Withdrawal, tb: Tb, act: PayoutAction)
    requires w.status == PayoutPending && tb.log == Locks(w.terms, Pending)
    requires w.feeFund == if w.terms.fee > 0 then Some(FundCreated) else None
    requires w.payout.Some? && (w.terms.isFiat, w.payout.value, act) in PAYOUT_FAILURES
    ensures Step(w, tb, PayoutUpdate(act))
         == Outcome(true,
              w.(payout := Some(PAYOUT_FAILURES[(w.terms.isFiat, w.payout.value, act)]), status := Failed,
                 operator := Workflow, feeFund := if w.terms.fee > 0 then Some(FundCancelled) else None),
              tb.(log := Locks(w.terms, Voided)))
  {
    hide Finalize, ReleaseLock;
    var w1 := w.(payout := Some(PAYOUT_FAILURES[(w.terms.isFiat, w.payout.value, act)]));
    Unlocks(w1.(status := Failed, operator := Workflow), tb);
  }

  lemma PayoutConfirms(w: Withdrawal, tb: Tb)
    requires w.status == PayoutPending && w.payout == Some(PConfirming) && tb.log == Locks(w.terms, Pending)
    requires CanCollect(w.terms, tb.accounts) && w.feeFund == if w.terms.fee > 0 then Some(FundCreated) else None
    ensures Step(w, tb, PayoutUpdate(PConfirm))
         == Outcome(true,
              w.(payout := Some(PCleared), status := Success, operator := Workflow,
                 feeFund := if w.terms.fee > 0 then Some(FundClear) else None),
              tb.(log := Settlement(w.terms)))
  {
    hide Finalize, ReleaseLock, CanCollect;
    FinalizeSettles(w.(payout := Some(PConfirmed)), tb);
  }

  lemma PayoutRefuses(w: Withdrawal, tb: Tb, act: PayoutAction)
    requires w.payout.Some? && InFlight(w.terms.isFiat, w.payout.value)
    requires (w.terms.isFiat, w.payout.value, act) !in PAYOUT_HOPS
    requires (w.terms.isFiat, w.payout.value, act) !in PAYOUT_FAILURES
    requires w.payout.value != PConfirming || act != PConfirm
    ensures Step(w, tb, PayoutUpdate(act)) == Outcome(false, w, tb)
  {
    hide Finalize, ReleaseLock;
  }

  /** A settled fiat payout can still be returned: the withdrawal becomes RETURNED, the fee fund is
      cancelled, and the settled locks stay settled. */
  lemma ReturnAfterSuccess(w: Withdrawal, tb: Tb, act: PayoutAction)
    requires Inv(w, tb) && w.status == Success
    ensures Step(w, tb, PayoutUpdate(act))
         == if w.terms.isFiat && act == PReturn then
              Outcome(true,
                w.(payout := Some(PReturned), status := Returned, operator := Workflow,
                   feeFund := if w.terms.fee > 0 then Some(FundCancelled) else None),
                tb)
            else Outcome(false, w, tb)
    ensures tb.log == Settlement(w.terms)
  {
    hide ReleaseLock, VoidBoth, Settlement, Locks, Finalize;
    if w.terms.isFiat && act == PReturn {
      VoidClosedLocks(w.terms, tb, Posted);
      Released(w.(payout := Some(PReturned), status := Returned, operator := Workflow), tb);
    }
  }

  /** A payout whose withdrawal was taken back for review, rejected or cancelled meanwhile goes its
      way alone: it is confirmed without settling anything, and fails or returns without freeing
      anything, and the call reports that failure. */
  lemma StrayPayoutMoves(w: Withdrawal, tb: Tb, act: PayoutAction)
    requires w.payout.Some? && w.status in {UnderReview, Rejected, Cancelled}
    ensures
      var fiat, p := w.terms.isFiat, w.payout.value;
      var key := (fiat, p, act);
      Step(w, tb, PayoutUpdate(act))
      == if key in PAYOUT_HOPS then Outcome(true, w.(payout := Some(PAYOUT_HOPS[key])), tb)
         else if p == PConfirming && act == PConfirm then Outcome(true, w.(payout := Some(PConfirmed)), tb)
         else if key in PAYOUT_FAILURES then Outcome(false, w.(payout := Some(PAYOUT_FAILURES[key])), tb)
         else if fiat && p in {PConfirmed, PCleared} && act == PReturn then
           Outcome(false, w.(payout := Some(PReturned)), tb)
         else Outcome(false, w, tb)
  {
    PayoutEdges(w.terms.isFiat, w.payout.value, act);
    forall next ensures AfterPayout(w, tb, next)
             == Outcome(next !in {PFailed, PTimedOut, PReturned}, w.(payout := Some(next)), tb)
    {
      StrayHandled(w, tb, next);
    }
    PayoutTargets((w.terms.isFiat, w.payout.value, act));
    hide PayoutTransition, AfterPayout, PAYOUT_HOPS, PAYOUT_FAILURES;
  }

  lemma PayoutEdges(isFiat: bool, p: PayoutStatus, act: PayoutAction)
    ensures
      var key := (isFiat, p, act);
      PayoutTransition(isFiat, p, act)
      == if key in PAYOUT_HOPS then Some(PAYOUT_HOPS[key])
         else if key in PAYOUT_FAILURES then Some(PAYOUT_FAILURES[key])
         else if p == PConfirming && act == PConfirm then Some(PConfirmed)
         else if p == PConfirmed && act == PClear then Some(PCleared)
         else if isFiat && p in {PConfirmed, PCleared} && act == PReturn then Some(PReturned)
         else None
  {
  }

  lemma PayoutTargets(key: (bool, PayoutStatus, PayoutAction))
    ensures key in PAYOUT_HOPS ==> PAYOUT_HOPS[key] in {PSigning, PBroadcasted, PConfirming} && key !in PAYOUT_FAILURES
    ensures key in PAYOUT_FAILURES ==> PAYOUT_FAILURES[key] in {PFailed, PTimedOut}
    ensures key in PAYOUT_HOPS || key in PAYOUT_FAILURES ==> key.2 != PClear && key.2 != PConfirm
  {
  }

  lemma StrayHandled(w: Withdrawal, tb: Tb, next: PayoutStatus)
    requires w.status in {UnderReview, Rejected, Cancelled}
    ensures AfterPayout(w, tb, next)
         == Outcome(next !in {PFailed, PTimedOut, PReturned}, w.(payout := Some(next)), tb)
  {
    hide ReleaseLock, VoidBoth;
  }

  /** A failed or returned withdrawal has no payout left to move. */
  lemma ClosedPayoutRefuses(w: Withdrawal, tb: Tb, act: PayoutAction)
    requires Inv(w, tb) && w.status in {Failed, Returned}
    ensures Step(w, tb, PayoutUpdate(act)) == Outcome(false, w, tb)
  {
    hide Finalize, ReleaseLock;
  }

  // ── Repairs ──

  /** A payout that failed without its withdrawal having heard of it: the repair fails the
      withdrawal and frees both locks. */
  lemma RepairFreesLocks(w: Withdrawal, tb: Tb)
    requires w.status == PayoutPending && w.payout in {Some(PFailed), Some(PTimedOut)}
    requires tb.log == Locks(w.terms, Pending)
    ensures
      var o := Step(w, tb, ReCompensate);
      && o.ok && o.w.status == Failed && o.w.payout == w.payout && o.tb == tb.(log := Locks(w.terms, Voided))
      && (w.feeFund.Some? ==> o.w.feeFund == Some(FundCancelled))
  {
    hide ReleaseLock;
    Unlocks(w.(status := Failed, operator := Workflow), tb);
  }

  /** A payout that was confirmed likewise: the repair settles, exactly when the fee can be taken. */
  lemma RepairSettles(w: Withdrawal, tb: Tb)
    requires w.status == PayoutPending && w.payout == Some(PConfirmed) && tb.log == Locks(w.terms, Pending)
    ensures
      var o := Step(w, tb, ReCloseout);
      && (o.ok <==> CanCollect(w.terms, tb.accounts))
      && (o.ok ==> o.w.status == Success && o.w.payout == Some(PCleared) && o.tb == tb.(log := Settlement(w.terms)))
      && (o.ok && w.feeFund.Some? ==> o.w.feeFund == Some(FundClear))
  {
    FinalizeSettles(w, tb);
    hide Finalize;
  }

  /** A payout that was returned likewise: the repair makes the settled withdrawal RETURNED, cancels the
      fee fund, and moves no money. */
  lemma RepairReturns(w: Withdrawal, tb: Tb)
    requires w.status == Success && w.payout == Some(PReturned) && tb.log == Settlement(w.terms)
    ensures
      var o := Step(w, tb, ReCompensate);
      && o.ok && o.w.status == Returned && o.w.payout == w.payout && o.tb == tb
      && (w.feeFund.Some? ==> o.w.feeFund == Some(FundCancelled))
  {
    hide ReleaseLock, VoidBoth, Settlement;
    VoidClosedLocks(w.terms, tb, Posted);
    Released(w.(status := Returned, operator := Workflow), tb);
  }

  /** A withdrawal taken back for review, rejected or cancelled is beyond both repairs. */
  lemma StrayRepairsRefused(w: Withdrawal, tb: Tb)
    requires w.status in {UnderReview, Rejected, Cancelled}
    ensures Step(w, tb, ReCloseout) == Outcome(false, w, tb) && Step(w, tb, ReCompensate) == Outcome(false, w, tb)
  {
    hide ReleaseLock, Finalize;
  }

  /** On a withdrawal that needs none, neither repair changes anything. */
  lemma RepairsAreIdle(w: Withdrawal, tb: Tb)
    requires Inv(w, tb)
    ensures Step(w, tb, ReCloseout) == Outcome(w.status == Success, w, tb)
    ensures Step(w, tb, ReCompensate) == Outcome(w.status in {Failed, Returned}, w, tb)
  {
    hide ReleaseLock, VoidBoth, Finalize, Settlement, Locks;
    if w.status == Failed {
      VoidClosedLocks(w.terms, tb, Voided);
      Released(w, tb);
    } else if w.status == Returned {
      VoidClosedLocks(w.terms, tb, Posted);
      Released(w, tb);
    }
  }

  lemma Released(w: Withdrawal, tb: Tb)
    ensures ReleaseLock(w, tb) == Outcome(true, SetFund(w, FundCancelled), VoidBoth(w.terms, tb))
  {
  }

  // ── The transfers ──

  /** Net and fee are two locks of their own, from the payable to the client's assets; the firm's fee
      is a posting of its own, from its assets to its fee account. */
  lemma TransfersAre(t: Terms, phase: Phase)
    ensures
      var id := (event: Event) => TransferId(Source(WithdrawKind, t.no), event, 0);
      var net := Transfer(id(WithdrawLockNet), t.payable, t.clientAsset, t.net, t.ledger, true, phase);
      var fee := Transfer(id(WithdrawLockFee), t.payable, t.clientAsset, t.fee, t.ledger, true, phase);
      var firm := Transfer(id(WithdrawFeeFirm), t.firmAsset, t.firmFee, t.fee, t.ledger, false, Posted);
      && Locks(t, phase) == (if t.fee > 0 then [net, fee] else [net])
      && (phase == Posted ==> Settlement(t) == if t.fee > 0 then [net, fee, firm] else [net])
  {
  }

  /** The fee can be collected when there is none, or when the firm's two accounts are known and both
      in the withdrawal's ledger. */
  lemma CollectMeans(t: Terms, accounts: map<nat, Account>)
    ensures CanCollect(t, accounts)
       <==> t.fee == 0
            || (t.firmAsset != t.firmFee && t.firmAsset in accounts && t.firmFee in accounts
                && accounts[t.firmAsset].ledger == t.ledger && accounts[t.firmFee].ledger == t.ledger)
  {
  }

  // ── Balances ──

  /** The customer's money is locked in these statuses. */
  predicate Holding(w: Withdrawal) {
    || w.status in {Created, PendingApproval, PendingCompliance, UnderReview, PayoutPending, Cancelled}
    || (w.status == Rejected && w.operator == Admin)
  }

  /** What a withdrawal has moved on any account: while it holds, net and fee are pending from payable
      to client assets; settled, they are posted, and the firm has moved the fee from its assets to
      its fee account; otherwise nothing. */
  lemma BalancesFollowRow(w: Withdrawal, tb: Tb, a: nat)
    requires Inv(w, tb)
    ensures
      var t := w.terms;
      && DebitsPending(tb, a) == (if Holding(w) && a == t.payable then t.net + t.fee else 0)
      && Sum(tb.log, CreditsIn(Pending, a)) == (if Holding(w) && a == t.clientAsset then t.net + t.fee else 0)
    ensures
      var t, settled := w.terms, w.status in {Success, Returned};
      && DebitsPosted(tb, a)
         == (if settled && a == t.payable then t.net + t.fee else 0)
             + (if settled && a == t.firmAsset then t.fee else 0)
      && CreditsPosted(tb, a)
         == (if settled && a == t.clientAsset then t.net + t.fee else 0)
             + (if settled && a == t.firmFee then t.fee else 0)
  {
    BooksSum(w, DebitsIn(Pending, a));
    BooksSum(w, CreditsIn(Pending, a));
    BooksSum(w, DebitsIn(Posted, a));
    BooksSum(w, CreditsIn(Posted, a));
  }

  lemma BooksSum(w: Withdrawal, wt: Transfer -> int)
    ensures
      var t, phase := w.terms, LockPhase(w);
      Sum(Books(w), wt)
      == wt(NetLock(t, phase)) + (if t.fee > 0 then wt(FeeLock(t, phase)) else 0)
         + (if phase == Posted && t.fee > 0 then wt(FirmFee(t)) else 0)
  {
    var t, phase := w.terms, LockPhase(w);
    var x, y, z := NetLock(t, phase), FeeLock(t, phase), FirmFee(t);
    SumOne(x, wt);
    assert [x, y][..1] == [x] && [x, y, z][..2] == [x, y];
  }
}
