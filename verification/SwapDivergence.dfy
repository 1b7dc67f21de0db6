/** Settling a leg posts it in the ledger before its successor is started. When the successor
    cannot start, the rows are rolled back and the ledger is not: exactly when this happens, what
    it leaves, and that nothing repairs it. */
module SwapDivergence {
  import opened Prelude
  import opened Ledger
  import opened SwapModel
  import opened SwapLedger
  import opened SwapInvariant
  import opened SwapSteps
  import opened SwapRuns

  /** The rows still wait for a leg that the ledger has posted, and the ledger holds what the
      attempt to start the next leg left behind. */
  predicate Diverged(ctx: Ctx, s: Swap, tb: Tb) {
    && Proper(ctx) && RowsInv(ctx, s) && Last(s.rows).status == Confirmed && Last(s.rows).legSeq < LEGS
    && RowsReady(ctx, tb, Restatus(s.rows, Clear)) && !CanStart(ctx, tb, Last(s.rows).legSeq + 1)
    && tb.log == Expected(ctx, tb, Restatus(s.rows, Clear)) + LeftByStart(ctx, tb, Last(s.rows).legSeq + 1)
  }

  // ── Blocked calls diverge, and only they do ──

  /** Rows of the next leg are new. */
  lemma NextIsFresh(ctx: Ctx, tb: Tb, rows: seq<LegRow>)
    requires History(rows) && LedgerInv(ctx, rows, tb) && Last(rows).status == Clear && Last(rows).legSeq < LEGS
    ensures Fresh(ctx, tb.log, ctx.Spec(Last(rows).legSeq + 1).entries, 1)
  {
    NewAttempt(rows, StartRow(ctx, Last(rows).legSeq + 1, 1));
    NewAttemptIsFresh(ctx, tb, rows, Last(rows).legSeq + 1, 1);
  }

  lemma SameLeft(ctx: Ctx, tb: Tb, tb': Tb, leg: nat)
    requires tb.accounts == tb'.accounts && 1 <= leg <= LEGS
    ensures LeftByStart(ctx, tb', leg) == LeftByStart(ctx, tb, leg)
  {
    SameBookable(ctx, tb, tb', ctx.Spec(leg), ctx.Spec(leg).entries);
  }

  /** The leg is posted; the next one is not started, and the call throws. */
  lemma PostedThenThrows(ctx: Ctx, s: Swap, post: TbOut) returns (o: Outcome)
    requires post.ok && History(s.rows) && LedgerInv(ctx, s.rows, post.tb)
    requires Last(s.rows).status == Clear && Last(s.rows).legSeq < LEGS
    requires !CanStart(ctx, post.tb, Last(s.rows).legSeq + 1)
    ensures o == AfterPost(ctx, s, post, Last(s.rows).legSeq, Last(s.rows).attempt) && !o.ok
    ensures o.tb.accounts == post.tb.accounts
    ensures RowsReady(ctx, o.tb, s.rows) && !CanStart(ctx, o.tb, Last(s.rows).legSeq + 1)
    ensures o.tb.log == Expected(ctx, o.tb, s.rows) + LeftByStart(ctx, o.tb, Last(s.rows).legSeq + 1)
  {
    var r := Last(s.rows);
    var s1 := s.(audits := s.audits + [LegPosted(r.legSeq, r.attempt)]);
    NextIsFresh(ctx, post.tb, s.rows);
    FirstStart(ctx, s1, post.tb, r.legSeq + 1);
    o := AfterPost(ctx, s, post, r.legSeq, r.attempt);
    SameExpected(ctx, post.tb, o.tb, s.rows);
    SameLeft(ctx, post.tb, o.tb, r.legSeq + 1);
    SameStart(ctx, post.tb, o.tb, r.legSeq + 1);
  }

  lemma SettleIsAfterPost(ctx: Ctx, s: Swap, tb: Tb) returns (post: TbOut)
    requires Inv(ctx, s, tb) && s.status == Processing && Last(s.rows).status == Confirmed
    ensures
      var r := Last(s.rows);
      var o := AfterPost(ctx, s.(rows := Restatus(s.rows, Clear)), post, r.legSeq, r.attempt);
      Step(ctx, s, tb, Advance(r.legSeq, Settle)) == if o.ok then o else o.(swap := s)
    ensures post.ok && LedgerInv(ctx, Restatus(s.rows, Clear), post.tb) && post.tb.accounts == tb.accounts
  {
    var r := Last(s.rows);
    AdvanceCurrent(ctx, s, tb, Settle);
    ResolveLast(ctx, tb, s.rows, Clear);
    post := ResolveLeg(ctx, ctx.Spec(r.legSeq), ctx.Spec(r.legSeq).entries, r.attempt, tb, Posted);
    hide LedgerInv, AfterPost, ResolveLeg, AdvanceBody;
  }

  /** A ledger that has spent the last row's attempt is not the one the rows account for. */
  lemma SpentDiffers(ctx: Ctx, s: Swap, tb: Tb, tb': Tb)
    requires Inv(ctx, s, tb) && PhaseOf(Last(s.rows).status) == Pending && Spent(ctx, tb'.log, Last(s.rows))
    ensures tb' != tb
  {
    ResolveLast(ctx, tb, s.rows, Clear);
    SpentCannotResolve(ctx, tb', Last(s.rows), Posted);
  }

  lemma BlockedFacts(ctx: Ctx, s: Swap, tb: Tb, op: Op)
    requires Inv(ctx, s, tb) && Blocked(ctx, s, tb, op)
    ensures RowsInv(ctx, s) && s.rows != [] && s.status == Processing && PhaseOf(Last(s.rows).status) == Pending
    ensures Last(s.rows).status == Confirmed && 1 <= Last(s.rows).legSeq < LEGS
    ensures op == Advance(Last(s.rows).legSeq, Settle) && !CanStart(ctx, tb, Last(s.rows).legSeq + 1)
  {
    hide CanStart, LedgerInv;
  }

  /** A blocked call throws, and the ledger is ahead of the rows from then on. */
  lemma BlockedDiverges(ctx: Ctx, s: Swap, tb: Tb, op: Op)
    requires Proper(ctx) && Inv(ctx, s, tb) && Blocked(ctx, s, tb, op)
    ensures
      var o := Step(ctx, s, tb, op);
      !o.ok && o.swap == s && Diverged(ctx, s, o.tb) && o.tb.accounts == tb.accounts && o.tb != tb
  {
    hide LedgerInv, AfterPost, Step, RowsInv, Inv, Expected, RowsReady, LeftByStart, Diverged, CanStart, Blocked, Spent;
    BlockedFacts(ctx, s, tb, op);
    var post := SettleIsAfterPost(ctx, s, tb);
    SettledDiverges(ctx, s, tb, post);
    var after := Step(ctx, s, tb, op).tb;
    DivergedIsSpent(ctx, s, after, |s.rows| - 1);
    SpentDiffers(ctx, s, tb, after);
  }

  lemma SettledDiverges(ctx: Ctx, s: Swap, tb: Tb, post: TbOut)
    requires Proper(ctx) && RowsInv(ctx, s) && Last(s.rows).status == Confirmed && Last(s.rows).legSeq < LEGS
    requires !CanStart(ctx, tb, Last(s.rows).legSeq + 1)
    requires post.ok && LedgerInv(ctx, Restatus(s.rows, Clear), post.tb) && post.tb.accounts == tb.accounts
    ensures
      var o := AfterPost(ctx, s.(rows := Restatus(s.rows, Clear)), post, Last(s.rows).legSeq, Last(s.rows).attempt);
      !o.ok && Diverged(ctx, s, o.tb) && o.tb.accounts == tb.accounts
  {
    RowsRestatus(s.rows, Clear);
    SameStart(ctx, tb, post.tb, Last(s.rows).legSeq + 1);
    hide CanStart, LedgerInv, AfterPost, RowsInv, Expected, RowsReady, LeftByStart;
    assert History(s.rows) by { HistoryOf(ctx, s); }
    var o := PostedThenThrows(ctx, s.(rows := Restatus(s.rows, Clear)), post);
  }

  lemma HistoryOf(ctx: Ctx, s: Swap)
    requires RowsInv(ctx, s)
    ensures History(s.rows)
  {
  }

  /** The exact condition for a call to be atomic across database and ledger: it is not about to
      post a leg whose successor cannot start. */
  lemma StepIsAtomicIff(ctx: Ctx, s: Swap, tb: Tb, op: Op)
    requires Proper(ctx) && Inv(ctx, s, tb)
    ensures
      var o := Step(ctx, s, tb, op);
      !Blocked(ctx, s, tb, op) <==> (if o.ok then Inv(ctx, o.swap, o.tb) else o.swap == s && o.tb == tb)
  {
    hide Inv, Step, Blocked;
    if Blocked(ctx, s, tb, op) {
      BlockedDiverges(ctx, s, tb, op);
    } else {
      StepKeepsInv(ctx, s, tb, op);
    }
  }

  // ── Nothing repairs it ──

  /** Of a swap that diverged, every attempt that could be settled is spent. */
  lemma DivergedIsSpent(ctx: Ctx, s: Swap, tb: Tb, i: nat)
    requires Diverged(ctx, s, tb) && i < |s.rows| && (s.rows[i].status == Clear || i == |s.rows| - 1)
    ensures Spent(ctx, tb.log, s.rows[i])
  {
    var rows := Restatus(s.rows, Clear);
    HistoryRestatus(s.rows, Clear);
    LegsUpToLast(s.rows, i);
    assert 1 <= rows[i].legSeq < LEGS && rows[i].status == Clear && SpecOk(ctx.plan, rows[i].legSeq);
    assert Spent(ctx, tb.log, rows[i]) ==> Spent(ctx, tb.log, s.rows[i]);
    hide History, RowsReady, Expected, LeftByStart, CanStart, Spent;
    ClearIsSpent(ctx, tb, rows, i, LeftByStart(ctx, tb, Last(s.rows).legSeq + 1));
  }

  /** Another state of the same swap's surroundings: accounts or wallets may have been opened. */
  predicate SameDeal(ctx: Ctx, ctx': Ctx) {
    ctx' == ctx.(accounts := ctx'.accounts, wallets := ctx'.wallets)
  }

  lemma SpentAnywhere(ctx: Ctx, ctx': Ctx, log: seq<Transfer>, r: LegRow)
    requires SameDeal(ctx, ctx') && Spent(ctx, log, r)
    ensures Spent(ctx', log, r)
  {
  }

  lemma DivergedRefuses(ctx: Ctx, s: Swap, tb: Tb, ctx': Ctx, tb': Tb, op: Op)
    requires Diverged(ctx, s, tb) && SameDeal(ctx, ctx') && tb'.log == tb.log
    ensures Step(ctx', s, tb', op) == Outcome(false, s, tb')
  {
    var leg := op.leg;
    if leg == 0 {
      NoSuchLeg(s.rows);
    } else {
      ActiveFacts(s.rows, leg);
      if leg <= Last(s.rows).legSeq {
        var i := Active(s.rows, leg);
        DivergedIsSpent(ctx, s, tb, i);
        SpentAnywhere(ctx, ctx', tb.log, s.rows[i]);
        SpentCannotResolve(ctx', tb', s.rows[i], Posted);
        SpentCannotResolve(ctx', tb', s.rows[i], Voided);
        SpentLegRefuses(ctx', s, tb', op);
      }
    }
  }

  /** A leg that is clear or confirmed, but spent, moves no more. */
  lemma SpentLegRefuses(ctx: Ctx, s: Swap, tb: Tb, op: Op)
    requires 1 <= op.leg <= LEGS && Active(s.rows, op.leg) >= 0
    requires s.rows[Active(s.rows, op.leg)].status in {Clear, Confirmed}
    requires forall outcome :: outcome in {Posted, Voided} ==>
      ResolveLeg(ctx, ctx.Spec(op.leg), ctx.Spec(op.leg).entries, s.rows[Active(s.rows, op.leg)].attempt, tb, outcome)
      == TbOut(false, tb)
    ensures Step(ctx, s, tb, op) == Outcome(false, s, tb)
  {
    hide ResolveLeg, CreateAndStart;
    var i := Active(s.rows, op.leg);
    match op
    case Resume(_) =>
    case Advance(leg, action) =>
      var row := s.rows[i];
      var next := Transition(ctx.IsFiat(ctx.Spec(leg).side), row.status, action);
      if next.Some? {
        var s1 := s.(rows := s.rows[i := row.(status := next.value)]);
        assert s1.rows[i].legSeq == leg && s1.rows[i].attempt == row.attempt;
      }
  }

  /** Whatever is tried afterwards, and whatever accounts or wallets are supplied first, every call
      is refused and the swap stays in process for good. */
  lemma {:induction false} DivergedForGood(ctx: Ctx, s: Swap, tb: Tb, ctx': Ctx, tb': Tb, ops: seq<Op>)
    requires Diverged(ctx, s, tb) && SameDeal(ctx, ctx') && tb'.log == tb.log
    ensures Run(ctx', s, tb', ops) == Outcome(true, s, tb') && s.status == Processing
    decreases |ops|
  {
    if ops != [] {
      DivergedRefuses(ctx, s, tb, ctx', tb', ops[0]);
      DivergedForGood(ctx, s, tb, ctx', tb', ops[1..]);
    }
  }

  // ── Every run ──

  /** Rows and ledger agree, or they have parted for good. */
  predicate Sound(ctx: Ctx, s: Swap, tb: Tb) { Proper(ctx) && (Inv(ctx, s, tb) || Diverged(ctx, s, tb)) }

  lemma StepKeepsSound(ctx: Ctx, s: Swap, tb: Tb, op: Op)
    requires Sound(ctx, s, tb)
    ensures
      var o := Step(ctx, s, tb, op);
      && Sound(ctx, o.swap, o.tb) && o.tb.accounts == tb.accounts && Grows(s.rows, o.swap.rows)
      && (!o.ok ==> o.swap == s)
  {
    hide Inv, Diverged, Step, Blocked;
    if Diverged(ctx, s, tb) {
      DivergedRefuses(ctx, s, tb, ctx, tb, op);
      NothingGrows(ctx, s, tb);
    } else if Blocked(ctx, s, tb, op) {
      BlockedDiverges(ctx, s, tb, op);
      NothingGrows(ctx, s, Step(ctx, s, tb, op).tb);
    } else {
      StepKeepsInv(ctx, s, tb, op);
    }
  }

  lemma NothingGrows(ctx: Ctx, s: Swap, tb: Tb)
    requires Diverged(ctx, s, tb)
    ensures Grows(s.rows, s.rows)
  {
  }

  lemma {:induction false} RunKeepsSound(ctx: Ctx, s: Swap, tb: Tb, ops: seq<Op>)
    requires Sound(ctx, s, tb)
    ensures var o := Run(ctx, s, tb, ops); Sound(ctx, o.swap, o.tb) && o.tb.accounts == tb.accounts
    decreases |ops|
  {
    if ops != [] {
      var o := Step(ctx, s, tb, ops[0]);
      StepKeepsSound(ctx, s, tb, ops[0]);
      RunKeepsSound(ctx, o.swap, o.tb, ops[1..]);
    }
  }
}
