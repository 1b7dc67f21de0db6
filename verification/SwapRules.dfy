/** What each call does to a swap in order, case by case: which actions move the current leg, which
    fail it and what the failure leads to, what settling starts, and what the summary and the audit
    entries then show. */
module SwapRules {
  import opened Prelude
  import opened Ledger
  import opened SwapModel
  import opened SwapLedger
  import opened SwapInvariant
  import opened SwapSteps
  import opened SwapRuns
  import opened SwapDivergence

  type Edges = map<(bool, LegStatus, LegAction), LegStatus>

  /** Fiat or crypto: steps on the way. */
  const LEG_HOPS: Edges := map[
    (true, Confirming, Confirm) := Confirmed,
    (false, Signing, Broadcast) := Broadcasted, (false, Broadcasted, SeenInMempool) := Confirming,
    (false, Confirming, Confirm) := Confirmed, (false, Confirming, Reorg) := Broadcasted,
    (false, Signing, Cancel) := Cancelled, (false, Broadcasted, Cancel) := Cancelled,
    (false, Confirming, Cancel) := Cancelled]

  /** Failures. */
  const LEG_FAILURES: Edges := map[
    (true, Confirming, Fail) := Failed, (true, Confirming, Expire) := TimedOut,
    (true, Confirmed, Return) := Returned,
    (false, Signing, SignFail) := Failed, (false, Broadcasted, Drop) := Failed,
    (false, Broadcasted, Expire) := TimedOut, (false, Confirming, Fail) := Failed,
    (false, Confirming, Expire) := TimedOut]

  /** The key of an action on the current leg. */
  function KeyOf(ctx: Ctx, r: LegRow, action: LegAction): (bool, LegStatus, LegAction)
    requires 1 <= r.legSeq <= LEGS
  {
    (ctx.IsFiat(ctx.Spec(r.legSeq).side), r.status, action)
  }

  lemma EdgeIsTransition(isFiat: bool, status: LegStatus, action: LegAction)
    requires InFlight(isFiat, status)
    ensures Transition(isFiat, status, action)
         == if (isFiat, status, action) in LEG_HOPS then Some(LEG_HOPS[(isFiat, status, action)])
            else if (isFiat, status, action) in LEG_FAILURES then Some(LEG_FAILURES[(isFiat, status, action)])
            else if status == Confirmed && action == Settle then Some(Clear)
            else None
  {
    if isFiat {
      hide CryptoTransition;
    } else {
      hide FiatTransition;
    }
  }

  lemma HopTargets(key: (bool, LegStatus, LegAction))
    ensures key in LEG_HOPS ==> InFlight(key.0, LEG_HOPS[key]) || (LEG_HOPS[key] == Cancelled && !key.0)
    ensures key in LEG_HOPS ==> !TerminalFail(LEG_HOPS[key]) && LEG_HOPS[key] != Clear
    ensures key in LEG_FAILURES ==> TerminalFail(LEG_FAILURES[key]) && key !in LEG_HOPS
  {
  }

  // ── Creation ──

  /** A swap is created exactly when leg 1 can start, and then shows its first attempt, with its
      transfers pending. */
  lemma CreatedSwap(ctx: Ctx, tb: Tb)
    requires Plain(ctx) && tb.log == []
    ensures ExecuteSwap(ctx, tb).ok <==> CanStart(ctx, tb, 1)
    ensures CanStart(ctx, tb, 1) ==>
      var o, spec := ExecuteSwap(ctx, tb), ctx.Spec(1);
      && o.swap == Swap(Processing, Some(SellStage), false,
                        [LegRow(1, 1, if ctx.IsFiat(spec.side) then Confirming else Signing)], [SwapCreated])
      && o.tb.accounts == tb.accounts && o.tb.log == Transfers(ctx, spec, spec.entries, 1, Pending)
  {
    hide ExecuteSwap, LedgerInv, CanStart, LeftByStart;
    ExecuteEstablishesInv(ctx, tb);
    if CanStart(ctx, tb, 1) {
      StartedLog(ctx, tb);
    }
  }

  lemma StartedLog(ctx: Ctx, tb: Tb)
    requires CanStart(ctx, tb, 1)
    ensures LeftByStart(ctx, tb, 1) == Transfers(ctx, ctx.Spec(1), ctx.Spec(1).entries, 1, Pending)
  {
  }

  // ── On the way ──

  lemma CurrentLeg(ctx: Ctx, s: Swap, tb: Tb)
    requires Working(ctx, s, tb)
    ensures s.rows != [] && 1 <= Last(s.rows).legSeq <= LEGS && s.status == Processing
    ensures CanStart(ctx, tb, Last(s.rows).legSeq)
    ensures InFlight(ctx.IsFiat(ctx.Spec(Last(s.rows).legSeq).side), Last(s.rows).status)
  {
    WorkingFacts(ctx, s, tb);
    LastCanStart(ctx, tb, s.rows);
  }

  /** A step on the way changes the current row's status and nothing else. */
  lemma HopMoves(ctx: Ctx, s: Swap, tb: Tb, action: LegAction)
    requires Working(ctx, s, tb) && KeyOf(ctx, Last(s.rows), action) in LEG_HOPS
    ensures
      var r := Last(s.rows);
      Step(ctx, s, tb, Advance(r.legSeq, action))
      == Outcome(true,
           s.(rows := s.rows[|s.rows| - 1 := r.(status := LEG_HOPS[KeyOf(ctx, r, action)])]), tb)
  {
    hide Inv, LEG_HOPS, LEG_FAILURES, AdvanceBody, Transition, InFlight, CanStart;
    CurrentLeg(ctx, s, tb);
    var key := KeyOf(ctx, Last(s.rows), action);
    EdgeIsTransition(key.0, key.1, action);
    HopTargets(key);
    AdvanceCurrent(ctx, s, tb, action);
  }

  /** Any other action on the current leg is refused, and changes nothing. */
  lemma OtherActionsRefused(ctx: Ctx, s: Swap, tb: Tb, action: LegAction)
    requires Working(ctx, s, tb)
    requires KeyOf(ctx, Last(s.rows), action) !in LEG_HOPS && KeyOf(ctx, Last(s.rows), action) !in LEG_FAILURES
    requires Last(s.rows).status != Confirmed || action != Settle
    ensures Step(ctx, s, tb, Advance(Last(s.rows).legSeq, action)) == Outcome(false, s, tb)
  {
    hide Inv, LEG_HOPS, LEG_FAILURES, AdvanceBody, Transition, InFlight, CanStart;
    CurrentLeg(ctx, s, tb);
    var key := KeyOf(ctx, Last(s.rows), action);
    EdgeIsTransition(key.0, key.1, action);
    AdvanceCurrent(ctx, s, tb, action);
  }

  // ── Failures ──

  lemma FailureReacts(ctx: Ctx, s: Swap, tb: Tb, action: LegAction)
    requires Working(ctx, s, tb) && KeyOf(ctx, Last(s.rows), action) in LEG_FAILURES
    ensures
      var next := LEG_FAILURES[KeyOf(ctx, Last(s.rows), action)];
      var o := OnLegFailed(ctx, s.(rows := Restatus(s.rows, next)), tb, |s.rows| - 1);
      TerminalFail(next)
      && Step(ctx, s, tb, Advance(Last(s.rows).legSeq, action)) == if o.ok then o else o.(swap := s)
  {
    hide Inv, LEG_HOPS, LEG_FAILURES, AdvanceBody, Transition, InFlight, OnLegFailed, CanStart, Restatus;
    CurrentLeg(ctx, s, tb);
    var key := KeyOf(ctx, Last(s.rows), action);
    EdgeIsTransition(key.0, key.1, action);
    HopTargets(key);
    AdvanceCurrent(ctx, s, tb, action);
  }

  /** A failing action at attempts 1 and 2: the row fails, its transfers are voided, and the next
      attempt of the leg starts, with its transfers pending. */
  lemma FailureRetries(ctx: Ctx, s: Swap, tb: Tb, action: LegAction) returns (before: seq<Transfer>)
    requires Working(ctx, s, tb) && KeyOf(ctx, Last(s.rows), action) in LEG_FAILURES
    requires Last(s.rows).attempt < 3
    ensures
      var r := Last(s.rows);
      var o := Step(ctx, s, tb, Advance(r.legSeq, action));
      && o.ok && Working(ctx, o.swap, o.tb) && o.tb.accounts == tb.accounts
      && o.swap.rows == s.rows[|s.rows| - 1 := r.(status := LEG_FAILURES[KeyOf(ctx, r, action)])]
                        + [LegRow(r.legSeq, r.attempt + 1,
                                  if ctx.IsFiat(ctx.Spec(r.legSeq).side) then Confirming else Signing)]
      && o.swap.audits == s.audits + [LegRetried(r.legSeq, r.attempt)]
    ensures CanStart(ctx, tb, Last(s.rows).legSeq)
    ensures
      var r, spec := Last(s.rows), ctx.Spec(Last(s.rows).legSeq);
      && tb.log == before + Transfers(ctx, spec, spec.entries, r.attempt, Pending)
      && Step(ctx, s, tb, Advance(r.legSeq, action)).tb.log
         == before + Transfers(ctx, spec, spec.entries, r.attempt, Voided)
            + Transfers(ctx, spec, spec.entries, r.attempt + 1, Pending)
  {
    hide Inv, LEG_HOPS, LEG_FAILURES, Transition, OnLegFailed, Trail, Step, CanStart, InFlight, TerminalFail;
    CurrentLeg(ctx, s, tb);
    FailureReacts(ctx, s, tb, action);
    var next := LEG_FAILURES[KeyOf(ctx, Last(s.rows), action)];
    var o := RetryKeepsInv(ctx, s, tb, next);
    RetriedSummary(ctx, s, tb, o, next);
    before := RetriedLedger(ctx, s, tb, o, next);
  }

  lemma RetriedSummary(ctx: Ctx, s: Swap, tb: Tb, o: Outcome, next: LegStatus)
    requires Working(ctx, s, tb) && TerminalFail(next) && Last(s.rows).attempt < 3
    requires Inv(ctx, o.swap, o.tb)
    requires Begins(ctx, o.swap, Restatus(s.rows, next), Last(s.rows).legSeq, Last(s.rows).attempt + 1)
    ensures Working(ctx, o.swap, o.tb)
    ensures o.swap.audits == s.audits + [LegRetried(Last(s.rows).legSeq, Last(s.rows).attempt)]
    ensures o.swap.rows == s.rows[|s.rows| - 1 := Last(s.rows).(status := next)]
                           + [LegRow(Last(s.rows).legSeq, Last(s.rows).attempt + 1,
                                     if ctx.IsFiat(ctx.Spec(Last(s.rows).legSeq).side) then Confirming else Signing)]
  {
    hide LedgerInv;
    WorkingFacts(ctx, s, tb);
    RowsRestatus(s.rows, next);
    assert Init(o.swap.rows) == Restatus(s.rows, next);
    hide History;
  }

  lemma RetriedLedger(ctx: Ctx, s: Swap, tb: Tb, o: Outcome, next: LegStatus) returns (before: seq<Transfer>)
    requires Working(ctx, s, tb) && TerminalFail(next) && Inv(ctx, o.swap, o.tb) && o.tb.accounts == tb.accounts
    requires Begins(ctx, o.swap, Restatus(s.rows, next), Last(s.rows).legSeq, Last(s.rows).attempt + 1)
    ensures CanStart(ctx, tb, Last(s.rows).legSeq)
    ensures
      var r, spec := Last(s.rows), ctx.Spec(Last(s.rows).legSeq);
      && tb.log == before + Transfers(ctx, spec, spec.entries, r.attempt, Pending)
      && o.tb.log == before + Transfers(ctx, spec, spec.entries, r.attempt, Voided)
                     + Transfers(ctx, spec, spec.entries, r.attempt + 1, Pending)
  {
    CurrentLeg(ctx, s, tb);
    WorkingFacts(ctx, s, tb);
    hide History, CanStart, RowsInv, Transfers, InFlight, Begins;
    before := Expected(ctx, tb, Init(s.rows));
    var failed := Restatus(s.rows, next);
    assert Init(o.swap.rows) == failed && Init(failed) == Init(s.rows);
    assert RowsReady(ctx, o.tb, failed);
    SameExpected(ctx, tb, o.tb, Init(s.rows));
    assert Expected(ctx, o.tb, failed) == before + RowTransfers(ctx, o.tb, Last(failed));
  }

  /** From attempt 3 on: its transfers are voided and the row is parked for review. */
  lemma FailureParks(ctx: Ctx, s: Swap, tb: Tb, action: LegAction) returns (before: seq<Transfer>)
    requires Working(ctx, s, tb) && KeyOf(ctx, Last(s.rows), action) in LEG_FAILURES
    requires Last(s.rows).attempt >= 3
    ensures
      var r := Last(s.rows);
      var o := Step(ctx, s, tb, Advance(r.legSeq, action));
      && o.ok && Inv(ctx, o.swap, o.tb) && o.tb.accounts == tb.accounts
      && o.swap.rows == s.rows[|s.rows| - 1 := r.(status := NeedsReview)]
      && o.swap.audits == s.audits + [LegStuck(r.legSeq, r.attempt)] && o.swap.needsReview
    ensures CanStart(ctx, tb, Last(s.rows).legSeq)
    ensures
      var r, spec := Last(s.rows), ctx.Spec(Last(s.rows).legSeq);
      && tb.log == before + Transfers(ctx, spec, spec.entries, r.attempt, Pending)
      && Step(ctx, s, tb, Advance(r.legSeq, action)).tb.log
         == before + Transfers(ctx, spec, spec.entries, r.attempt, Voided)
  {
    hide Inv, LEG_HOPS, LEG_FAILURES, Transition, OnLegFailed, Trail, Step, CanStart, InFlight, TerminalFail;
    CurrentLeg(ctx, s, tb);
    FailureReacts(ctx, s, tb, action);
    var next := LEG_FAILURES[KeyOf(ctx, Last(s.rows), action)];
    var o := OnLegFailed(ctx, s.(rows := Restatus(s.rows, next)), tb, |s.rows| - 1);
    StuckKeepsInv(ctx, s, tb, next);
    ParkedSummary(ctx, s, tb, o);
    before := ParkedLedger(ctx, s, tb, o);
  }

  lemma ParkedSummary(ctx: Ctx, s: Swap, tb: Tb, o: Outcome)
    requires Working(ctx, s, tb) && Inv(ctx, o.swap, o.tb) && o.swap.rows == Restatus(s.rows, NeedsReview)
    ensures o.swap.audits == s.audits + [LegStuck(Last(s.rows).legSeq, Last(s.rows).attempt)] && o.swap.needsReview
  {
    hide LedgerInv;
    WorkingFacts(ctx, s, tb);
    RowsRestatus(s.rows, NeedsReview);
    hide History;
  }

  lemma ParkedLedger(ctx: Ctx, s: Swap, tb: Tb, o: Outcome) returns (before: seq<Transfer>)
    requires Working(ctx, s, tb) && Inv(ctx, o.swap, o.tb) && o.tb.accounts == tb.accounts
    requires o.swap.rows == Restatus(s.rows, NeedsReview)
    ensures CanStart(ctx, tb, Last(s.rows).legSeq)
    ensures
      var r, spec := Last(s.rows), ctx.Spec(Last(s.rows).legSeq);
      && tb.log == before + Transfers(ctx, spec, spec.entries, r.attempt, Pending)
      && o.tb.log == before + Transfers(ctx, spec, spec.entries, r.attempt, Voided)
  {
    CurrentLeg(ctx, s, tb);
    WorkingFacts(ctx, s, tb);
    assert Init(o.swap.rows) == Init(s.rows);
    hide History, CanStart, RowsInv;
    before := Expected(ctx, tb, Init(s.rows));
    SameExpected(ctx, tb, o.tb, Init(s.rows));
  }

  // ── Settling ──

  /** Settling leg 1, 2 or 3 posts its transfers and starts the next leg, when that can start. */
  lemma SettleStartsNext(ctx: Ctx, s: Swap, tb: Tb) returns (before: seq<Transfer>)
    requires Working(ctx, s, tb) && Last(s.rows).status == Confirmed && Last(s.rows).legSeq < 4
    requires CanStart(ctx, tb, Last(s.rows).legSeq + 1)
    ensures
      var r := Last(s.rows);
      var o := Step(ctx, s, tb, Advance(r.legSeq, Settle));
      && o.ok && Working(ctx, o.swap, o.tb) && o.tb.accounts == tb.accounts && 1 <= r.legSeq
      && o.swap.rows == s.rows[|s.rows| - 1 := r.(status := Clear)]
                        + [LegRow(r.legSeq + 1, 1,
                                  if ctx.IsFiat(ctx.Spec(r.legSeq + 1).side) then Confirming else Signing)]
      && o.swap.audits == s.audits + [LegPosted(r.legSeq, r.attempt)]
    ensures CanStart(ctx, tb, Last(s.rows).legSeq)
    ensures
      var r := Last(s.rows);
      var spec, next := ctx.Spec(r.legSeq), ctx.Spec(r.legSeq + 1);
      && tb.log == before + Transfers(ctx, spec, spec.entries, r.attempt, Pending)
      && Step(ctx, s, tb, Advance(r.legSeq, Settle)).tb.log
         == before + Transfers(ctx, spec, spec.entries, r.attempt, Posted)
            + Transfers(ctx, next, next.entries, 1, Pending)
  {
    hide Inv, AdvanceBody, Transition, OnLegCleared, Trail, CanStart, InFlight;
    CurrentLeg(ctx, s, tb);
    SettleIsClear(ctx.IsFiat(ctx.Spec(Last(s.rows).legSeq).side));
    AdvanceCurrent(ctx, s, tb, Settle);
    ChainKeepsInv(ctx, s, tb);
    var r := Last(s.rows);
    var o := OnLegCleared(ctx, s.(rows := Restatus(s.rows, Clear)), tb, r.legSeq, r.attempt);
    NextSummary(ctx, s, tb, o);
    before := NextLedger(ctx, s, tb, o);
  }

  lemma SettleIsClear(isFiat: bool)
    ensures Transition(isFiat, Confirmed, Settle) == Some(Clear)
  {
  }

  lemma NextSummary(ctx: Ctx, s: Swap, tb: Tb, o: Outcome)
    requires Working(ctx, s, tb) && Last(s.rows).status == Confirmed && Last(s.rows).legSeq < 4
    requires Inv(ctx, o.swap, o.tb)
    requires o.swap.rows == Restatus(s.rows, Clear) + [StartRow(ctx, Last(s.rows).legSeq + 1, 1)]
    ensures Working(ctx, o.swap, o.tb)
    ensures o.swap.audits == s.audits + [LegPosted(Last(s.rows).legSeq, Last(s.rows).attempt)]
  {
    hide LedgerInv;
    WorkingFacts(ctx, s, tb);
    RowsRestatus(s.rows, Clear);
    assert Init(o.swap.rows) == Restatus(s.rows, Clear);
    hide History;
  }

  lemma NextLedger(ctx: Ctx, s: Swap, tb: Tb, o: Outcome) returns (before: seq<Transfer>)
    requires Working(ctx, s, tb) && Inv(ctx, o.swap, o.tb) && o.tb.accounts == tb.accounts
    requires 1 <= Last(s.rows).legSeq < LEGS && CanStart(ctx, tb, Last(s.rows).legSeq + 1)
    requires o.swap.rows == Restatus(s.rows, Clear) + [StartRow(ctx, Last(s.rows).legSeq + 1, 1)]
    ensures CanStart(ctx, tb, Last(s.rows).legSeq)
    ensures
      var r := Last(s.rows);
      var spec, next := ctx.Spec(r.legSeq), ctx.Spec(r.legSeq + 1);
      && tb.log == before + Transfers(ctx, spec, spec.entries, r.attempt, Pending)
      && o.tb.log == before + Transfers(ctx, spec, spec.entries, r.attempt, Posted)
                     + Transfers(ctx, next, next.entries, 1, Pending)
  {
    CurrentLeg(ctx, s, tb);
    WorkingFacts(ctx, s, tb);
    hide History, CanStart, RowsInv, Transfers;
    before := Expected(ctx, tb, Init(s.rows));
    var clear := Restatus(s.rows, Clear);
    assert Init(o.swap.rows) == clear && Init(clear) == Init(s.rows);
    assert RowsReady(ctx, o.tb, clear);
    SameExpected(ctx, tb, o.tb, Init(s.rows));
    assert Expected(ctx, o.tb, clear) == before + RowTransfers(ctx, o.tb, Last(clear));
  }

  /** Settling leg 4 posts its transfers and ends the swap. */
  lemma SettleFinishes(ctx: Ctx, s: Swap, tb: Tb) returns (before: seq<Transfer>)
    requires Working(ctx, s, tb) && Last(s.rows).status == Confirmed && Last(s.rows).legSeq == 4
    ensures
      var r := Last(s.rows);
      var o := Step(ctx, s, tb, Advance(4, Settle));
      && o.ok && Inv(ctx, o.swap, o.tb) && o.tb.accounts == tb.accounts
      && o.swap == Swap(Success, None, false, s.rows[|s.rows| - 1 := r.(status := Clear)],
                        s.audits + [LegPosted(4, r.attempt), SwapSucceeded])
    ensures CanStart(ctx, tb, 4)
    ensures
      var spec, attempt := ctx.Spec(4), Last(s.rows).attempt;
      && tb.log == before + Transfers(ctx, spec, spec.entries, attempt, Pending)
      && Step(ctx, s, tb, Advance(4, Settle)).tb.log == before + Transfers(ctx, spec, spec.entries, attempt, Posted)
  {
    hide Inv, AdvanceBody, Transition, OnLegCleared, Trail, CanStart, InFlight;
    CurrentLeg(ctx, s, tb);
    SettleIsClear(ctx.IsFiat(ctx.Spec(4).side));
    AdvanceCurrent(ctx, s, tb, Settle);
    SuccessKeepsInv(ctx, s, tb);
    var o := OnLegCleared(ctx, s.(rows := Restatus(s.rows, Clear)), tb, 4, Last(s.rows).attempt);
    FinalSummary(ctx, s, tb, o);
    before := FinalLedger(ctx, s, tb, o);
  }

  lemma FinalSummary(ctx: Ctx, s: Swap, tb: Tb, o: Outcome)
    requires Working(ctx, s, tb) && Last(s.rows).legSeq == 4 && Inv(ctx, o.swap, o.tb)
    requires o.swap.rows == Restatus(s.rows, Clear)
    ensures o.swap == Swap(Success, None, false, s.rows[|s.rows| - 1 := Last(s.rows).(status := Clear)],
                           s.audits + [LegPosted(4, Last(s.rows).attempt), SwapSucceeded])
  {
    hide LedgerInv;
    WorkingFacts(ctx, s, tb);
    RowsRestatus(s.rows, Clear);
    hide History;
  }

  lemma FinalLedger(ctx: Ctx, s: Swap, tb: Tb, o: Outcome) returns (before: seq<Transfer>)
    requires Working(ctx, s, tb) && Inv(ctx, o.swap, o.tb) && o.tb.accounts == tb.accounts
    requires o.swap.rows == Restatus(s.rows, Clear)
    ensures CanStart(ctx, tb, Last(s.rows).legSeq)
    ensures
      var r, spec := Last(s.rows), ctx.Spec(Last(s.rows).legSeq);
      && tb.log == before + Transfers(ctx, spec, spec.entries, r.attempt, Pending)
      && o.tb.log == before + Transfers(ctx, spec, spec.entries, r.attempt, Posted)
  {
    CurrentLeg(ctx, s, tb);
    WorkingFacts(ctx, s, tb);
    assert Init(o.swap.rows) == Init(s.rows);
    hide History, CanStart, RowsInv, Transfers;
    before := Expected(ctx, tb, Init(s.rows));
    SameExpected(ctx, tb, o.tb, Init(s.rows));
  }

  // ── Resuming ──

  /** Resuming a parked leg starts its next attempt, under its own ids. */
  lemma ResumeRestarts(ctx: Ctx, s: Swap, tb: Tb)
    requires Inv(ctx, s, tb) && Last(s.rows).status == NeedsReview
    ensures
      var r := Last(s.rows);
      var o := Step(ctx, s, tb, Resume(r.legSeq));
      && o.ok && Working(ctx, o.swap, o.tb) && o.tb.accounts == tb.accounts && 1 <= r.legSeq <= LEGS
      && o.swap.rows == s.rows + [LegRow(r.legSeq, r.attempt + 1,
                                         if ctx.IsFiat(ctx.Spec(r.legSeq).side) then Confirming else Signing)]
      && o.swap.audits == s.audits + [LegResumed(r.legSeq, r.attempt + 1)] && !o.swap.needsReview
    ensures CanStart(ctx, tb, Last(s.rows).legSeq)
    ensures
      var r, spec := Last(s.rows), ctx.Spec(Last(s.rows).legSeq);
      Step(ctx, s, tb, Resume(r.legSeq)).tb.log
      == tb.log + Transfers(ctx, spec, spec.entries, r.attempt + 1, Pending)
  {
    hide Inv, ResumeBody, Settled, Trail, LegReady;
    ParkedIsSettled(ctx, s, tb);
    ResumeKeepsInv(ctx, s, tb);
    ResumeStep(ctx, s, tb);
    var o := ResumeBody(ctx, s, tb, Last(s.rows).legSeq);
    ResumedSummary(ctx, s, tb, o);
  }

  lemma ResumedSummary(ctx: Ctx, s: Swap, tb: Tb, o: Outcome)
    requires Inv(ctx, s, tb) && Last(s.rows).status == NeedsReview && Inv(ctx, o.swap, o.tb)
    requires 1 <= Last(s.rows).legSeq <= LEGS && o.tb.accounts == tb.accounts && CanStart(ctx, tb, Last(s.rows).legSeq)
    requires o.swap.rows == s.rows + [StartRow(ctx, Last(s.rows).legSeq, Last(s.rows).attempt + 1)]
    ensures Working(ctx, o.swap, o.tb) && !o.swap.needsReview
    ensures o.swap.audits == s.audits + [LegResumed(Last(s.rows).legSeq, Last(s.rows).attempt + 1)]
    ensures
      var r, spec := Last(s.rows), ctx.Spec(Last(s.rows).legSeq);
      o.tb.log == tb.log + Transfers(ctx, spec, spec.entries, r.attempt + 1, Pending)
  {
    assert Init(o.swap.rows) == s.rows;
    hide History, CanStart;
    SameExpected(ctx, tb, o.tb, s.rows);
  }

  /** Three failures of a fresh leg park it, and a resume starts attempt 4: the leg's rows are then
      exactly attempts 1 to 4. */
  lemma ThreeFailuresAndAResume(ctx: Ctx, s: Swap, tb: Tb)
    requires Working(ctx, s, tb)
    requires Last(s.rows).attempt == 1
    requires Last(s.rows).status == if ctx.IsFiat(ctx.Spec(Last(s.rows).legSeq).side) then Confirming else Signing
    ensures
      var leg := Last(s.rows).legSeq;
      var fiat := ctx.IsFiat(ctx.Spec(leg).side);
      var fail, start := Advance(leg, if fiat then Fail else SignFail), if fiat then Confirming else Signing;
      var o := Run(ctx, s, tb, [fail, fail, fail, Resume(leg)]);
      && o.ok && o.swap.status == Processing && !o.swap.needsReview
      && o.swap.rows == s.rows[..|s.rows| - 1] + [LegRow(leg, 1, Failed), LegRow(leg, 2, Failed),
                                                  LegRow(leg, 3, NeedsReview), LegRow(leg, 4, start)]
      && o.swap.audits == s.audits + [LegRetried(leg, 1), LegRetried(leg, 2), LegStuck(leg, 3), LegResumed(leg, 4)]
  {
    hide Inv, InFlight, CanStart, Transition, LEG_HOPS, Step, Transfers;
    CurrentLeg(ctx, s, tb);
    var leg := Last(s.rows).legSeq;
    var fiat := ctx.IsFiat(ctx.Spec(leg).side);
    var action, start := if fiat then Fail else SignFail, if fiat then Confirming else Signing;
    FailsFromStart(fiat);
    var fail := Advance(leg, action);
    var t1 := FailureRetries(ctx, s, tb, action);
    var x := Step(ctx, s, tb, fail);
    var t2 := FailureRetries(ctx, x.swap, x.tb, action);
    var y := Step(ctx, x.swap, x.tb, fail);
    var t3 := FailureParks(ctx, y.swap, y.tb, action);
    var z := Step(ctx, y.swap, y.tb, fail);
    ResumeRestarts(ctx, z.swap, z.tb);
    var o := Step(ctx, z.swap, z.tb, Resume(leg));
    hide LEG_FAILURES;
    FourSteps(ctx, s, tb, fail, Resume(leg), x, y, z, o);
    CurrentLeg(ctx, o.swap, o.tb);
    RowsAddUp(s.rows, x.swap.rows, y.swap.rows, z.swap.rows, o.swap.rows, leg, start);
    AuditsAddUp(s.audits, LegRetried(leg, 1), LegRetried(leg, 2), LegStuck(leg, 3), LegResumed(leg, 4));
  }

  lemma FailsFromStart(fiat: bool)
    ensures
      var key := (fiat, if fiat then Confirming else Signing, if fiat then Fail else SignFail);
      key in LEG_FAILURES && LEG_FAILURES[key] == Failed
  {
  }

  lemma AuditsAddUp(s: seq<Audit>, a: Audit, b: Audit, c: Audit, d: Audit)
    ensures s + [a] + [b] + [c] + [d] == s + [a, b, c, d]
  {
  }

  lemma RowsAddUp(s: seq<LegRow>, x: seq<LegRow>, y: seq<LegRow>, z: seq<LegRow>, o: seq<LegRow>, leg: nat,
      start: LegStatus)
    requires s != [] && s[|s| - 1] == LegRow(leg, 1, start)
    requires x == s[|s| - 1 := LegRow(leg, 1, Failed)] + [LegRow(leg, 2, start)]
    requires y == x[|x| - 1 := LegRow(leg, 2, Failed)] + [LegRow(leg, 3, start)]
    requires z == y[|y| - 1 := LegRow(leg, 3, NeedsReview)] && o == z + [LegRow(leg, 4, start)]
    ensures o == s[..|s| - 1] + [LegRow(leg, 1, Failed), LegRow(leg, 2, Failed), LegRow(leg, 3, NeedsReview),
                                 LegRow(leg, 4, start)]
  {
  }

  lemma FourSteps(ctx: Ctx, s: Swap, tb: Tb, fail: Op, again: Op, x: Outcome, y: Outcome, z: Outcome, o: Outcome)
    requires x == Step(ctx, s, tb, fail) && y == Step(ctx, x.swap, x.tb, fail)
    requires z == Step(ctx, y.swap, y.tb, fail) && o == Step(ctx, z.swap, z.tb, again)
    ensures Run(ctx, s, tb, [fail, fail, fail, again]) == Outcome(true, o.swap, o.tb)
  {
    hide Step;
    RunAfter(ctx, z.swap, z.tb, again, []);
    RunAfter(ctx, y.swap, y.tb, fail, [again]);
    RunAfter(ctx, x.swap, x.tb, fail, [fail, again]);
    RunAfter(ctx, s, tb, fail, [fail, fail, again]);
    assert [again] + [] == [again] && [fail] + [again] == [fail, again];
    assert [fail] + [fail, again] == [fail, fail, again] && [fail] + [fail, fail, again] == [fail, fail, fail, again];
  }

  // ── One call on the current leg ──

  /** The swap works on this leg, and the next one can start. */
  ghost predicate AtWork(ctx: Ctx, s: Swap, tb: Tb, leg: nat) {
    && Working(ctx, s, tb) && leg == Last(s.rows).legSeq && 1 <= leg <= LEGS
    && (leg < 4 ==> CanStart(ctx, tb, leg + 1))
  }

  /** What one action on the current leg comes to, while the next leg, if one is called for, can
      start. */
  ghost predicate Answers(ctx: Ctx, s: Swap, action: LegAction, o: Outcome)
  {
    && s.rows != [] && 1 <= Last(s.rows).legSeq <= LEGS &&
    var n, r := |s.rows| - 1, Last(s.rows);
    var fiat := ctx.IsFiat(ctx.Spec(r.legSeq).side);
    var key := (fiat, r.status, action);
    if key in LEG_HOPS then o.ok && o.swap == s.(rows := s.rows[n := r.(status := LEG_HOPS[key])])
    else if key in LEG_FAILURES && r.attempt < 3 then
      && o.ok && o.swap.audits == s.audits + [LegRetried(r.legSeq, r.attempt)]
      && o.swap.rows == s.rows[n := r.(status := LEG_FAILURES[key])]
                        + [LegRow(r.legSeq, r.attempt + 1, if fiat then Confirming else Signing)]
    else if key in LEG_FAILURES then
      && o.ok && o.swap.audits == s.audits + [LegStuck(r.legSeq, r.attempt)] && o.swap.needsReview
      && o.swap.rows == s.rows[n := r.(status := NeedsReview)]
    else if r.status == Confirmed && action == Settle && r.legSeq < 4 then
      && o.ok && o.swap.audits == s.audits + [LegPosted(r.legSeq, r.attempt)]
      && o.swap.rows == s.rows[n := r.(status := Clear)]
                        + [LegRow(r.legSeq + 1, 1,
                                  if ctx.IsFiat(ctx.Spec(r.legSeq + 1).side) then Confirming else Signing)]
    else if r.status == Confirmed && action == Settle then
      o.ok && o.swap == Swap(Success, None, false, s.rows[n := r.(status := Clear)],
                             s.audits + [LegPosted(4, r.attempt), SwapSucceeded])
    else !o.ok && o.swap == s
  }

  lemma ActionIsAnswered(ctx: Ctx, s: Swap, tb: Tb, action: LegAction)
    requires Working(ctx, s, tb) && (Last(s.rows).legSeq < 4 ==> CanStart(ctx, tb, Last(s.rows).legSeq + 1))
    ensures Answers(ctx, s, action, Step(ctx, s, tb, Advance(Last(s.rows).legSeq, action)))
  {
    hide Inv, Step, LEG_HOPS, LEG_FAILURES, CanStart, Transfers, InFlight;
    CurrentLeg(ctx, s, tb);
    var key := KeyOf(ctx, Last(s.rows), action);
    HopTargets(key);
    if key in LEG_HOPS {
      HopMoves(ctx, s, tb, action);
    } else if key in LEG_FAILURES && Last(s.rows).attempt < 3 {
      var before := FailureRetries(ctx, s, tb, action);
    } else if key in LEG_FAILURES {
      var before := FailureParks(ctx, s, tb, action);
    } else if Last(s.rows).status != Confirmed || action != Settle {
      OtherActionsRefused(ctx, s, tb, action);
    } else if Last(s.rows).legSeq < 4 {
      var before := SettleStartsNext(ctx, s, tb);
    } else {
      var before := SettleFinishes(ctx, s, tb);
    }
  }

  /** A finished swap takes no call; a parked or cancelled leg no action; a leg not yet started none
      either; and only a parked leg is resumed. */
  lemma OtherCallsRefused(ctx: Ctx, s: Swap, tb: Tb, op: Op)
    requires Inv(ctx, s, tb)
    requires
      var r := Last(s.rows);
      match op
      case Resume(leg) => leg != r.legSeq || r.status != NeedsReview
      case Advance(leg, _) =>
        s.status == Success || leg == 0 || leg > r.legSeq || (leg == r.legSeq && r.status in {NeedsReview, Cancelled})
    ensures Step(ctx, s, tb, op) == Outcome(false, s, tb)
  {
    assert RowsInv(ctx, s);
    hide LedgerInv, Trail, Step;
    if op.leg >= 1 {
      ActiveFacts(s.rows, op.leg);
    }
    hide History;
    CallRefused(ctx, s, tb, op);
  }

  lemma CallRefused(ctx: Ctx, s: Swap, tb: Tb, op: Op)
    requires
      var i := Active(s.rows, op.leg);
      || s.status != Processing || op.leg == 0 || i < 0
      || match op
         case Resume(_) => s.rows[i].status != NeedsReview
         case Advance(_, _) => s.rows[i].status in {NeedsReview, Cancelled}
    ensures Step(ctx, s, tb, op) == Outcome(false, s, tb)
  {
    hide Active, PriorOpen, CreateAndStart, Follow, InitiatePending;
  }

  /** Whatever state a swap is in: while an earlier leg's active row is not clear, no later leg takes an
      action. */
  lemma OpenLegBlocksLater(ctx: Ctx, s: Swap, tb: Tb, earlier: nat, leg: nat, action: LegAction)
    requires earlier < leg && Active(s.rows, earlier) >= 0 && s.rows[Active(s.rows, earlier)].status != Clear
    ensures Step(ctx, s, tb, Advance(leg, action)) == Outcome(false, s, tb)
  {
    OpenAt(s.rows, Active(s.rows, earlier), |s.rows|, leg);
    hide Active, PriorOpen, Follow, InitiatePending;
  }

  lemma {:induction false} OpenAt(rows: seq<LegRow>, i: nat, n: nat, leg: nat)
    requires i < n <= |rows| && rows[i].legSeq < leg && !ActiveIs(rows, rows[i].legSeq, Clear)
    ensures PriorOpen(rows, n, leg)
  {
    hide Active;
    if i < n - 1 {
      OpenAt(rows, i, n - 1, leg);
    }
  }

  // ── Transfers ──

  /** What a leg's transfers are: none at amount zero, otherwise one per entry, in order, on the
      accounts registered for the entry's codes on the leg's side, for the leg's amount, in that
      side's ledger, under an id of its swap, event and attempt. */
  lemma {:induction false} TransfersMean(ctx: Ctx, spec: LegSpec, entries: seq<Entry>, attempt: nat, phase: Phase)
    requires ctx.Amount(spec.amount) > 0 ==> forall e :: e in entries ==>
      ctx.Resolves(e.debitCode, spec.side) && ctx.Resolves(e.creditCode, spec.side)
    ensures
      var amount := if spec.amount == FromAmount then ctx.fromAmount
                    else if spec.amount == GrossTo then ctx.grossTo else ctx.fee;
      var ts := Transfers(ctx, spec, entries, attempt, phase);
      if amount == 0 then ts == []
      else
        && |ts| == |entries|
        && forall k :: 0 <= k < |entries| ==>
             && (entries[k].debitCode, spec.side) in ctx.accounts && (entries[k].creditCode, spec.side) in ctx.accounts
             && ts[k] == Transfer(TransferId(Source(SwapKind, ctx.swapNo), entries[k].event, attempt),
                                  ctx.accounts[(entries[k].debitCode, spec.side)],
                                  ctx.accounts[(entries[k].creditCode, spec.side)], amount,
                                  if spec.side == From then ctx.fromLedger else ctx.toLedger, true, phase)
  {
    if entries != [] && ctx.Amount(spec.amount) > 0 {
      assert entries[0] in entries && forall e :: e in entries[1..] ==> e in entries;
      TransfersMean(ctx, spec, entries[1..], attempt, phase);
      assert Transfers(ctx, spec, entries, attempt, phase)
          == [TransferFor(ctx, spec, entries[0], attempt, phase)] + Transfers(ctx, spec, entries[1..], attempt, phase);
      hide Transfers;
    }
  }

  // ── Wallets ──

  /** The wallets each leg needs to be found, on its own side. */
  lemma LegWallets(ctx: Ctx)
    requires ctx.plan == SwapLegPlan(ctx.fromIsFiat)
    ensures ctx.fromIsFiat ==>
      && (ctx.WalletsFound(ctx.Spec(1)) <==> {(CustomerViban, From), (FirmSetWallet, From)} <= ctx.wallets)
      && (ctx.WalletsFound(ctx.Spec(2)) <==> {(FirmSetWallet, From), (FirmOpsWallet, From)} <= ctx.wallets)
      && (ctx.WalletsFound(ctx.Spec(3)) <==> {(FirmOpsWallet, To), (CustomerDeposit, To)} <= ctx.wallets)
      && (ctx.WalletsFound(ctx.Spec(4)) <==> {(CustomerDeposit, To), (FirmFeeWallet, To)} <= ctx.wallets)
    ensures !ctx.fromIsFiat ==>
      && (ctx.WalletsFound(ctx.Spec(1)) <==> {(CustomerDeposit, From), (FirmOpsWallet, From)} <= ctx.wallets)
      && (ctx.WalletsFound(ctx.Spec(2)) <==> {(FirmOpsWallet, To), (FirmSetWallet, To)} <= ctx.wallets)
      && (ctx.WalletsFound(ctx.Spec(3)) <==> {(FirmSetWallet, To), (CustomerViban, To)} <= ctx.wallets)
      && (ctx.WalletsFound(ctx.Spec(4)) <==> {(CustomerViban, To), (FirmFeeWallet, To)} <= ctx.wallets)
  {
  }

  // ── What an operator sees ──

  /** The stage shown is the name of the current leg's; the review flag is up exactly while the
      current leg is parked. */
  lemma StageNames(ctx: Ctx, s: Swap)
    requires RowsInv(ctx, s)
    ensures
      var r := Last(s.rows);
      && (s.status == Success <==> r.legSeq == 4 && r.status == Clear)
      && (s.status == Success ==> s.stage == None)
      && (s.status != Success && r.legSeq == 1 ==> s.stage == Some(SellStage))
      && (s.status != Success && r.legSeq == 2 ==> s.stage == Some(SettleStage))
      && (s.status != Success && r.legSeq == 3 ==> s.stage == Some(BuyStage))
      && (s.status != Success && r.legSeq == 4 ==> s.stage == Some(FeeStage))
      && (s.needsReview <==> r.status == NeedsReview)
  {
    hide History, Trail;
  }

  // ── The audit trail ──

  predicate HasAttempt(rows: seq<LegRow>, leg: nat, attempt: nat) {
    exists r :: r in rows && r.legSeq == leg && r.attempt == attempt
  }

  /** The audit entries hold exactly: a posting of every cleared row, a retry where attempt 1 or 2
      was followed by another, a parking of attempt 3 or a later one, a resume wherever an attempt
      after the third exists, and the end of the swap. */
  lemma AuditsFollowRows(ctx: Ctx, s: Swap, leg: nat, attempt: nat)
    requires RowsInv(ctx, s)
    ensures SwapCreated in s.audits && (SwapSucceeded in s.audits <==> s.status == Success)
    ensures LegPosted(leg, attempt) in s.audits <==> LegRow(leg, attempt, Clear) in s.rows
    ensures LegRetried(leg, attempt) in s.audits <==> 1 <= attempt < 3 && HasAttempt(s.rows, leg, attempt + 1)
    ensures LegResumed(leg, attempt) in s.audits <==> attempt > 3 && HasAttempt(s.rows, leg, attempt)
    ensures LegStuck(leg, attempt) in s.audits
       <==> attempt >= 3 && (LegRow(leg, attempt, NeedsReview) in s.rows)
  {
    TrailFollowsRows(s.rows, leg, attempt);
    assert s.rows != [];
    hide StageOf, History;
    LastOrBefore(s.rows, LegRow(leg, attempt, Clear));
    LastOrBefore(s.rows, LegRow(leg, attempt, NeedsReview));
  }

  lemma {:induction false} TrailFollowsRows(rows: seq<LegRow>, leg: nat, attempt: nat)
    requires History(rows)
    ensures SwapCreated in Trail(rows) && SwapSucceeded !in Trail(rows)
    ensures LegPosted(leg, attempt) in Trail(rows) <==> LegRow(leg, attempt, Clear) in Init(rows)
    ensures LegRetried(leg, attempt) in Trail(rows) <==> 1 <= attempt < 3 && HasAttempt(rows, leg, attempt + 1)
    ensures LegResumed(leg, attempt) in Trail(rows) <==> attempt > 3 && HasAttempt(rows, leg, attempt)
    ensures LegStuck(leg, attempt) in Trail(rows)
       <==> attempt >= 3 && (LegRow(leg, attempt, NeedsReview) in Init(rows))
  {
    AttemptGrows(rows, leg, attempt);
    AttemptGrows(rows, leg, attempt + 1);
    if |rows| > 1 {
      TrailFollowsRows(Init(rows), leg, attempt);
      LastOrBefore(Init(rows), LegRow(leg, attempt, Clear));
      LastOrBefore(Init(rows), LegRow(leg, attempt, NeedsReview));
      AttemptsStartAtOne(Init(rows));
      assert Linked(Init(rows), Last(rows));
      hide HasAttempt, History, Linked, LinkAudits;
      LinkFollowsRows(Init(rows), Last(rows), leg, attempt);
    }
  }

  lemma AttemptsStartAtOne(rows: seq<LegRow>)
    requires History(rows)
    ensures Last(rows).attempt >= 1
  {
  }

  lemma LinkFollowsRows(rows: seq<LegRow>, b: LegRow, leg: nat, attempt: nat)
    requires rows != [] && Last(rows).attempt >= 1 && Linked(rows, b)
    ensures SwapCreated !in LinkAudits(rows, b) && SwapSucceeded !in LinkAudits(rows, b)
    ensures LegPosted(leg, attempt) in LinkAudits(rows, b) <==> LegRow(leg, attempt, Clear) == Last(rows)
    ensures LegRetried(leg, attempt) in LinkAudits(rows, b)
       <==> 1 <= attempt < 3 && b.legSeq == leg && b.attempt == attempt + 1
    ensures LegResumed(leg, attempt) in LinkAudits(rows, b) <==> attempt > 3 && b.legSeq == leg && b.attempt == attempt
    ensures LegStuck(leg, attempt) in LinkAudits(rows, b)
       <==> attempt >= 3 && Last(rows) == LegRow(leg, attempt, NeedsReview)
  {
  }

  lemma LastOrBefore(rows: seq<LegRow>, r: LegRow)
    requires rows != []
    ensures r in rows <==> r in Init(rows) || r == Last(rows)
  {
  }

  lemma AttemptGrows(rows: seq<LegRow>, leg: nat, attempt: nat)
    requires rows != []
    ensures HasAttempt(rows, leg, attempt)
       <==> HasAttempt(Init(rows), leg, attempt) || (Last(rows).legSeq == leg && Last(rows).attempt == attempt)
  {
    if HasAttempt(rows, leg, attempt) {
      var r :| r in rows && r.legSeq == leg && r.attempt == attempt;
      LastOrBefore(rows, r);
    }
  }
}
