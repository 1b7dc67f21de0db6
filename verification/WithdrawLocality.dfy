/** A withdrawal's calls on a ledger it shares with other documents: each answers as on the
    withdrawal's own part of the ledger, moves nothing else, and moves every sum as that part moves.
    Only the creation asks for cover, for the net amount and the fee together. */
module WithdrawLocality {
  import opened Prelude
  import opened Ledger
  import opened LedgerViews
  import opened Cover
  import opened WithdrawModel
  import opened WithdrawInvariant

  // ── A withdrawal's calls are local, and move every sum as they move their own view ──

  ghost predicate Work(a: Tb, b: Tb, v: Tb, src: Source, wt: Transfer -> int) {
    LocalTo(a, b, v, src) && Shifts(a, b, src, wt)
  }

  lemma WorkNone(a: Tb, src: Source, wt: Transfer -> int)
    requires UniqueIds(a.log)
    ensures Work(a, a, View(a, src), src, wt)
  {
  }

  lemma WorkThen(a: Tb, b: Tb, c: Tb, v: Tb, src: Source, wt: Transfer -> int)
    requires Work(a, b, View(b, src), src, wt) && Work(b, c, v, src, wt)
    ensures Work(a, c, v, src, wt)
  {
    LocalTrans(a, b, c, v, src);
  }

  lemma WorkCreate(tb: Tb, t: Transfer, wt: Transfer -> int)
    requires UniqueIds(tb.log)
    ensures
      var r, v := Create(tb, t), Create(View(tb, t.id.source), t);
      (r.Ok? <==> v.Ok?) && (r.Ok? ==> Work(tb, r.value, v.value, t.id.source, wt))
  {
    CreateLocal(tb, t);
    if Create(tb, t).Ok? {
      CreateShifts(tb, t, wt);
    }
  }

  lemma WorkResolve(tb: Tb, id: TransferId, amount: nat, outcome: Phase, wt: Transfer -> int)
    requires UniqueIds(tb.log)
    ensures
      var r, v := Resolve(tb, id, amount, outcome), Resolve(View(tb, id.source), id, amount, outcome);
      (r.Ok? <==> v.Ok?) && (r.Ok? ==> Work(tb, r.value, v.value, id.source, wt))
  {
    ResolveLocal(tb, id, amount, outcome);
    if Resolve(tb, id, amount, outcome).Ok? {
      ResolveShifts(tb, id, amount, outcome, wt);
    }
  }

  lemma WorkVoid(tb: Tb, id: TransferId, amount: nat, wt: Transfer -> int) returns (b: Tb)
    requires UniqueIds(tb.log)
    ensures b == VoidBestEffort(tb, id, amount) && UniqueIds(b.log)
    ensures Work(tb, b, VoidBestEffort(View(tb, id.source), id, amount), id.source, wt)
  {
    b := VoidBestEffort(tb, id, amount);
    WorkResolve(tb, id, amount, Voided, wt);
    WorkNone(tb, id.source, wt);
  }

  lemma WorkVoidBoth(t: Terms, tb: Tb, wt: Transfer -> int)
    requires UniqueIds(tb.log)
    ensures Work(tb, VoidBoth(t, tb), VoidBoth(t, View(tb, t.Src())), t.Src(), wt)
  {
    var tb1 := WorkVoid(tb, t.NetId(), t.net, wt);
    hide Work, VoidBestEffort;
    if t.fee > 0 {
      var tb2 := WorkVoid(tb1, t.FeeId(), t.fee, wt);
      WorkThen(tb, tb1, tb2, VoidBestEffort(View(tb1, t.Src()), t.FeeId(), t.fee), t.Src(), wt);
    }
  }

  /** The same answer, row and effect on the shared ledger as on the withdrawal's own view. */
  ghost predicate SameOutcome(tb: Tb, o: Outcome, v: Outcome, src: Source, wt: Transfer -> int) {
    o.ok == v.ok && o.w == v.w && Work(tb, o.tb, v.tb, src, wt)
  }

  lemma ReleaseIsWork(w: Withdrawal, tb: Tb, wt: Transfer -> int)
    requires UniqueIds(tb.log)
    ensures SameOutcome(tb, ReleaseLock(w, tb), ReleaseLock(w, View(tb, w.terms.Src())), w.terms.Src(), wt)
  {
    WorkVoidBoth(w.terms, tb, wt);
    Releases(w, tb);
    Releases(w, View(tb, w.terms.Src()));
  }

  lemma Releases(w: Withdrawal, tb: Tb)
    ensures ReleaseLock(w, tb) == Outcome(true, SetFund(w, FundCancelled), VoidBoth(w.terms, tb))
  {
  }

  lemma CompensateIsWork(w: Withdrawal, tb: Tb, a: Action, target: Status, wt: Transfer -> int)
    requires UniqueIds(tb.log)
    ensures SameOutcome(tb, Compensate(w, tb, a, target), Compensate(w, View(tb, w.terms.Src()), a, target),
        w.terms.Src(), wt)
  {
    hide ReleaseLock;
    WorkNone(tb, w.terms.Src(), wt);
    ReleaseIsWork(w, tb, wt);
    if Move(w, a, Workflow).Some? {
      ReleaseIsWork(Move(w, a, Workflow).value, tb, wt);
    }
  }

  // Settlement, last step first.

  function FirmStep(w: Withdrawal, tb: Tb): Outcome {
    match Execute(tb, w.terms.FirmId(), w.terms.firmAsset, w.terms.firmFee, w.terms.fee, w.terms.ledger)
    case Err(_) => Outcome(false, w, tb)
    case Ok(tb3) => Settle(w, tb3)
  }

  function FeeStep(w: Withdrawal, tb: Tb): Outcome {
    match PostPending(tb, w.terms.FeeId(), w.terms.fee)
    case Err(_) => Outcome(false, w, tb)
    case Ok(tb2) => FirmStep(w, tb2)
  }

  function NetStep(w: Withdrawal, tb: Tb): Outcome {
    match PostPending(tb, w.terms.NetId(), w.terms.net)
    case Err(_) => Outcome(false, w, tb)
    case Ok(tb1) => if w.terms.fee == 0 then Settle(w, tb1) else FeeStep(w, tb1)
  }

  lemma FinalizeInSteps(w: Withdrawal, tb: Tb)
    ensures Finalize(w, tb) == if w.status != PayoutPending then Outcome(true, w, tb) else NetStep(w, tb)
  {
  }

  lemma SettleIsWork(w: Withdrawal, tb: Tb, mid: Tb, v: Tb, wt: Transfer -> int)
    requires Work(tb, mid, v, w.terms.Src(), wt)
    ensures SameOutcome(tb, Settle(w, mid), Settle(w, v), w.terms.Src(), wt)
  {
    hide Work;
  }

  lemma FirmIsWork(w: Withdrawal, tb: Tb, wt: Transfer -> int)
    requires UniqueIds(tb.log)
    ensures SameOutcome(tb, FirmStep(w, tb), FirmStep(w, View(tb, w.terms.Src())), w.terms.Src(), wt)
  {
    var t := w.terms;
    var x := Transfer(t.FirmId(), t.firmAsset, t.firmFee, t.fee, t.ledger, false, Posted);
    WorkCreate(tb, x, wt);
    WorkNone(tb, t.Src(), wt);
    if Create(tb, x).Ok? {
      SettleIsWork(w, tb, Create(tb, x).value, Create(View(tb, t.Src()), x).value, wt);
    }
  }

  lemma ThenWork(tb: Tb, mid: Tb, o: Outcome, v: Outcome, src: Source, wt: Transfer -> int)
    requires Work(tb, mid, View(mid, src), src, wt) && SameOutcome(mid, o, v, src, wt)
    ensures SameOutcome(tb, o, v, src, wt)
  {
    WorkThen(tb, mid, o.tb, v.tb, src, wt);
  }

  lemma FeeIsWork(w: Withdrawal, tb: Tb, wt: Transfer -> int)
    requires UniqueIds(tb.log)
    ensures SameOutcome(tb, FeeStep(w, tb), FeeStep(w, View(tb, w.terms.Src())), w.terms.Src(), wt)
  {
    hide Execute, Settle, Resolve;
    var t := w.terms;
    WorkResolve(tb, t.FeeId(), t.fee, Posted, wt);
    WorkNone(tb, t.Src(), wt);
    if Resolve(tb, t.FeeId(), t.fee, Posted).Ok? {
      var mid := Resolve(tb, t.FeeId(), t.fee, Posted).value;
      FirmIsWork(w, mid, wt);
      ThenWork(tb, mid, FirmStep(w, mid), FirmStep(w, View(mid, t.Src())), t.Src(), wt);
    }
  }

  lemma NetIsWork(w: Withdrawal, tb: Tb, wt: Transfer -> int)
    requires UniqueIds(tb.log)
    ensures SameOutcome(tb, NetStep(w, tb), NetStep(w, View(tb, w.terms.Src())), w.terms.Src(), wt)
  {
    hide FeeStep, Settle, Resolve;
    var t := w.terms;
    WorkResolve(tb, t.NetId(), t.net, Posted, wt);
    WorkNone(tb, t.Src(), wt);
    if Resolve(tb, t.NetId(), t.net, Posted).Ok? {
      var mid := Resolve(tb, t.NetId(), t.net, Posted).value;
      SettleIsWork(w, tb, mid, View(mid, t.Src()), wt);
      FeeIsWork(w, mid, wt);
      ThenWork(tb, mid, FeeStep(w, mid), FeeStep(w, View(mid, t.Src())), t.Src(), wt);
    }
  }

  lemma FinalizeIsWork(w: Withdrawal, tb: Tb, wt: Transfer -> int)
    requires UniqueIds(tb.log)
    ensures SameOutcome(tb, Finalize(w, tb), Finalize(w, View(tb, w.terms.Src())), w.terms.Src(), wt)
  {
    hide Finalize, NetStep;
    FinalizeInSteps(w, tb);
    FinalizeInSteps(w, View(tb, w.terms.Src()));
    NetIsWork(w, tb, wt);
    WorkNone(tb, w.terms.Src(), wt);
  }

  lemma StepIsWork(w: Withdrawal, tb: Tb, op: Op, wt: Transfer -> int)
    requires UniqueIds(tb.log)
    ensures SameOutcome(tb, Step(w, tb, op), Step(w, View(tb, w.terms.Src()), op), w.terms.Src(), wt)
  {
    hide Work, Finalize, Compensate, ReleaseLock, View;
    WorkNone(tb, w.terms.Src(), wt);
    match op
    case ApprovalDecided(approved) => ReleaseIsWork(w.(status := Rejected, operator := Workflow), tb, wt);
    case PayoutUpdate(act) =>
      if w.payout.Some? && act != PClear && PayoutTransition(w.terms.isFiat, w.payout.value, act).Some? {
        var w1 := w.(payout := Some(PayoutTransition(w.terms.isFiat, w.payout.value, act).value));
        FinalizeIsWork(w1, tb, wt);
        CompensateIsWork(w1, tb, Fail, Failed, wt);
        CompensateIsWork(w1, tb, Return, Returned, wt);
      }
    case ReCloseout => FinalizeIsWork(w, tb, wt);
    case ReCompensate =>
      CompensateIsWork(w, tb, Fail, Failed, wt);
      CompensateIsWork(w, tb, Return, Returned, wt);
    case _ =>
  }

  // ── Creation ──

  ghost predicate SameCreation(tb: Tb, c: Creation, v: Creation, src: Source, wt: Transfer -> int) {
    c.Stored? == v.Stored? && (c.Stored? ==> c.w == v.w) && Work(tb, c.tb, v.tb, src, wt)
  }

  /** Creation once it is known whether the payable has cover for the net amount, and then for the
      fee; last step first. */
  function FeeLockGiven(t: Terms, tb: Tb, feeOk: bool, dbOk: bool): Creation {
    if !feeOk then NotCreated(VoidBestEffort(tb, t.NetId(), t.net))
    else
      match Create(tb, FeeLock(t, Pending))
      case Err(_) => NotCreated(VoidBestEffort(tb, t.NetId(), t.net))
      case Ok(tb2) => if dbOk then Stored(NewRow(t), tb2) else NotCreated(VoidBoth(t, tb2))
  }

  function CreateGiven(t: Terms, tb: Tb, netOk: bool, feeOk: bool, dbOk: bool): Creation {
    if !netOk then NotCreated(tb)
    else
      match Create(tb, NetLock(t, Pending))
      case Err(_) => NotCreated(tb)
      case Ok(tb1) =>
        if t.fee > 0 then FeeLockGiven(t, tb1, feeOk, dbOk)
        else if dbOk then Stored(NewRow(t), tb1) else NotCreated(VoidBoth(t, tb1))
  }

  predicate NetCovered(t: Terms, tb: Tb, capped: set<nat>) { Covers(tb, capped, NetLock(t, Pending)) }

  predicate FeeCovered(t: Terms, tb: Tb, capped: set<nat>) {
    var r := Create(tb, NetLock(t, Pending));
    r.Ok? ==> Covers(r.value, capped, FeeLock(t, Pending))
  }

  lemma CreationIsGiven(t: Terms, tb: Tb, capped: set<nat>, dbOk: bool)
    ensures CreateWithdrawal(t, tb, capped, dbOk)
         == CreateGiven(t, tb, NetCovered(t, tb, capped), FeeCovered(t, tb, capped), dbOk)
  {
    hide VoidBestEffort, Covers, Create;
  }

  lemma FeeLockIsWork(t: Terms, tb: Tb, feeOk: bool, dbOk: bool, wt: Transfer -> int)
    requires UniqueIds(tb.log) && t.fee > 0
    ensures SameCreation(tb, FeeLockGiven(t, tb, feeOk, dbOk), FeeLockGiven(t, View(tb, t.Src()), feeOk, dbOk),
        t.Src(), wt)
  {
    hide VoidBoth, VoidBestEffort, Create;
    var x := FeeLock(t, Pending);
    WorkCreate(tb, x, wt);
    var voided := WorkVoid(tb, t.NetId(), t.net, wt);
    if feeOk && Create(tb, x).Ok? {
      var tb2 := Create(tb, x).value;
      WorkVoidBoth(t, tb2, wt);
      WorkThen(tb, tb2, VoidBoth(t, tb2), VoidBoth(t, View(tb2, t.Src())), t.Src(), wt);
    }
  }

  lemma CreationIsWork(t: Terms, tb: Tb, netOk: bool, feeOk: bool, dbOk: bool, wt: Transfer -> int)
    requires UniqueIds(tb.log)
    ensures SameCreation(tb, CreateGiven(t, tb, netOk, feeOk, dbOk),
                         CreateGiven(t, View(tb, t.Src()), netOk, feeOk, dbOk), t.Src(), wt)
  {
    var x := NetLock(t, Pending);
    hide VoidBoth, FeeLockGiven, Create;
    WorkNone(tb, t.Src(), wt);
    WorkCreate(tb, x, wt);
    if netOk && Create(tb, x).Ok? {
      var tb1 := Create(tb, x).value;
      WorkVoidBoth(t, tb1, wt);
      WorkThen(tb, tb1, VoidBoth(t, tb1), VoidBoth(t, View(tb1, t.Src())), t.Src(), wt);
      if t.fee > 0 {
        FeeLockIsWork(t, tb1, feeOk, dbOk, wt);
        WorkThen(tb, tb1, FeeLockGiven(t, tb1, feeOk, dbOk).tb, FeeLockGiven(t, View(tb1, t.Src()), feeOk, dbOk).tb,
                 t.Src(), wt);
      }
    }
  }

  /** Under an unused number: both locks are taken, or neither stays open. */
  lemma FreshGiven(t: Terms, v: Tb, netOk: bool, feeOk: bool, dbOk: bool)
    requires v.log == []
    ensures
      CreateGiven(t, v, netOk, feeOk, dbOk)
      == if !netOk || !CanLock(t, v.accounts) then NotCreated(v)
         else if t.fee > 0 && !feeOk then NotCreated(v.(log := [NetLock(t, Voided)]))
         else if dbOk then Stored(NewRow(t), v.(log := Locks(t, Pending)))
         else NotCreated(v.(log := Locks(t, Voided)))
  {
    if CanLock(t, v.accounts) {
      CreateLocks(t, v, dbOk);
      CreationIsGiven(t, v, {}, dbOk);
      FeeRefused(t, v);
    }
  }

  lemma FeeRefused(t: Terms, v: Tb)
    requires v.log == [] && CanLock(t, v.accounts)
    ensures Create(v, NetLock(t, Pending)) == Ok(v.(log := [NetLock(t, Pending)]))
    ensures VoidBestEffort(v.(log := [NetLock(t, Pending)]), t.NetId(), t.net) == v.(log := [NetLock(t, Voided)])
  {
    var tb1 := v.(log := [NetLock(t, Pending)]);
    assert v.log + [NetLock(t, Pending)] == tb1.log;
    FindFirst(tb1.log, 0, t.NetId());
    assert tb1.log[0 := NetLock(t, Voided)] == [NetLock(t, Voided)];
  }

  // ── Cover ──

  /** On any shared ledger, under an unused number: a withdrawal is created exactly when the database
      takes it, its accounts can take the locks, and its payable, if flagged, has the net amount and
      the fee free together. */
  lemma CreatedIffCovered(t: Terms, tb: Tb, capped: set<nat>, dbOk: bool)
    requires UniqueIds(tb.log) && View(tb, t.Src()).log == []
    ensures CreateWithdrawal(t, tb, capped, dbOk).Stored?
       <==> dbOk && CanLock(t, tb.accounts) && (t.payable in capped ==> t.net + t.fee <= Free(tb, t.payable))
  {
    var x, y, v := NetLock(t, Pending), FeeLock(t, Pending), View(tb, t.Src());
    MineFind(tb.log, t.NetId());
    MineFind(tb.log, t.FeeId());
    CreationIsGiven(t, tb, capped, dbOk);
    FreshGiven(t, v, NetCovered(t, tb, capped), FeeCovered(t, tb, capped), dbOk);
    CreationIsWork(t, tb, NetCovered(t, tb, capped), FeeCovered(t, tb, capped), dbOk, Adds(t.payable));
    if CanLock(t, tb.accounts) {
      CreateMovesFree(tb, x, t.payable);
      IndexOfConcat(tb.log, [x], t.FeeId());
      assert IndexOf([x], t.FeeId()) == 1;
    }
  }

  /** And a refused one leaves nothing pending on any account, whatever it was refused for. */
  lemma RefusedHoldsNothing(t: Terms, tb: Tb, capped: set<nat>, dbOk: bool, account: nat)
    requires UniqueIds(tb.log) && View(tb, t.Src()).log == []
    requires !CreateWithdrawal(t, tb, capped, dbOk).Stored?
    ensures DebitsPending(CreateWithdrawal(t, tb, capped, dbOk).tb, account) == DebitsPending(tb, account)
  {
    hide CreateWithdrawal, CreateGiven, CanLock, NetCovered, FeeCovered;
    var w, v := DebitsIn(Pending, account), View(tb, t.Src());
    CreationIsGiven(t, tb, capped, dbOk);
    FreshGiven(t, v, NetCovered(t, tb, capped), FeeCovered(t, tb, capped), dbOk);
    CreationIsWork(t, tb, NetCovered(t, tb, capped), FeeCovered(t, tb, capped), dbOk, w);
    VoidedIsNotPending(NetLock(t, Voided), FeeLock(t, Voided), account);
  }

  lemma VoidedIsNotPending(x: Transfer, y: Transfer, account: nat)
    requires x.phase == Voided && y.phase == Voided
    ensures Sum([x], DebitsIn(Pending, account)) == 0 && Sum([x, y], DebitsIn(Pending, account)) == 0
  {
    SumOne(x, DebitsIn(Pending, account));
    assert [x, y][..1] == [x];
  }

  // ── No withdrawal overdraws a flagged account ──

  lemma VoidKeepsSolvent(tb: Tb, capped: set<nat>, id: TransferId, amount: nat)
    requires Solvent(tb, capped)
    ensures Solvent(VoidBestEffort(tb, id, amount), capped)
  {
    if Resolve(tb, id, amount, Voided).Ok? {
      ResolveKeepsSolvent(tb, capped, id, amount, Voided);
    }
  }

  lemma VoidBothKeepsSolvent(t: Terms, tb: Tb, capped: set<nat>)
    requires Solvent(tb, capped)
    ensures Solvent(VoidBoth(t, tb), capped)
  {
    VoidKeepsSolvent(tb, capped, t.NetId(), t.net);
    VoidKeepsSolvent(VoidBestEffort(tb, t.NetId(), t.net), capped, t.FeeId(), t.fee);
  }

  lemma CreationKeepsSolvent(t: Terms, tb: Tb, capped: set<nat>, dbOk: bool)
    requires Solvent(tb, capped)
    ensures Solvent(CreateWithdrawal(t, tb, capped, dbOk).tb, capped)
  {
    var x, y := NetLock(t, Pending), FeeLock(t, Pending);
    hide Solvent, VoidBestEffort, Create, Covers;
    if CreateCapped(tb, capped, x).Ok? {
      var tb1 := CreateCapped(tb, capped, x).value;
      CreateKeepsSolvent(tb, capped, x);
      VoidKeepsSolvent(tb1, capped, t.NetId(), t.net);
      if CreateCapped(tb1, capped, y).Ok? {
        var tb2 := CreateCapped(tb1, capped, y).value;
        CreateKeepsSolvent(tb1, capped, y);
        VoidKeepsSolvent(tb2, capped, t.NetId(), t.net);
        VoidKeepsSolvent(VoidBestEffort(tb2, t.NetId(), t.net), capped, t.FeeId(), t.fee);
      }
    }
  }

  lemma PlainCreateKeepsSolvent(tb: Tb, capped: set<nat>, x: Transfer)
    requires Solvent(tb, capped) && x.debit !in capped && Create(tb, x).Ok?
    ensures Solvent(Create(tb, x).value, capped)
  {
    CreateKeepsSolvent(tb, capped, x);
  }

  lemma FinalizeKeepsSolvent(w: Withdrawal, tb: Tb, capped: set<nat>)
    requires Solvent(tb, capped) && w.terms.firmAsset !in capped
    ensures Solvent(Finalize(w, tb).tb, capped)
  {
    FinalizeInSteps(w, tb);
    var t := w.terms;
    hide Solvent, Finalize, Settle, Create, Resolve;
    var r := Resolve(tb, t.NetId(), t.net, Posted);
    if r.Ok? {
      ResolveKeepsSolvent(tb, capped, t.NetId(), t.net, Posted);
      var r2 := Resolve(r.value, t.FeeId(), t.fee, Posted);
      SettleKeepsLedger(w, r.value);
      if r2.Ok? {
        ResolveKeepsSolvent(r.value, capped, t.FeeId(), t.fee, Posted);
        var x := Transfer(t.FirmId(), t.firmAsset, t.firmFee, t.fee, t.ledger, false, Posted);
        if Create(r2.value, x).Ok? {
          PlainCreateKeepsSolvent(r2.value, capped, x);
          SettleKeepsLedger(w, Create(r2.value, x).value);
        }
      }
    }
  }

  lemma SettleKeepsLedger(w: Withdrawal, tb: Tb)
    ensures Settle(w, tb).tb == tb
  {
  }

  lemma ReleaseKeepsSolvent(w: Withdrawal, tb: Tb, capped: set<nat>)
    requires Solvent(tb, capped)
    ensures Solvent(ReleaseLock(w, tb).tb, capped)
  {
    Releases(w, tb);
    VoidBothKeepsSolvent(w.terms, tb, capped);
  }

  lemma CompensateKeepsSolvent(w: Withdrawal, tb: Tb, a: Action, target: Status, capped: set<nat>)
    requires Solvent(tb, capped)
    ensures Solvent(Compensate(w, tb, a, target).tb, capped)
  {
    hide ReleaseLock, Solvent;
    ReleaseKeepsSolvent(w, tb, capped);
    if Move(w, a, Workflow).Some? {
      ReleaseKeepsSolvent(Move(w, a, Workflow).value, tb, capped);
    }
  }

  /** Whatever state the withdrawal is in. */
  lemma StepKeepsSolvent(w: Withdrawal, tb: Tb, op: Op, capped: set<nat>)
    requires Solvent(tb, capped) && w.terms.firmAsset !in capped
    ensures Solvent(Step(w, tb, op).tb, capped)
  {
    hide Finalize, Compensate, ReleaseLock, Solvent;
    match op
    case ApprovalDecided(approved) =>
      ReleaseKeepsSolvent(w.(status := Rejected, operator := Workflow), tb, capped);
    case PayoutUpdate(act) =>
      if w.payout.Some? && act != PClear && PayoutTransition(w.terms.isFiat, w.payout.value, act).Some? {
        var w1 := w.(payout := Some(PayoutTransition(w.terms.isFiat, w.payout.value, act).value));
        FinalizeKeepsSolvent(w1, tb, capped);
        CompensateKeepsSolvent(w1, tb, Fail, Failed, capped);
        CompensateKeepsSolvent(w1, tb, Return, Returned, capped);
      }
    case ReCloseout => FinalizeKeepsSolvent(w, tb, capped);
    case ReCompensate =>
      CompensateKeepsSolvent(w, tb, Fail, Failed, capped);
      CompensateKeepsSolvent(w, tb, Return, Returned, capped);
    case _ =>
  }
}
