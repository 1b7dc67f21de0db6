/** The steps of a run, one lemma for each way a call can go: what it does to the rows, and what it
    does to the ledger. */
module SwapSteps {
  import opened Prelude
  import opened Ledger
  import opened SwapModel
  import opened SwapLedger
  import opened SwapInvariant

  function StartStatus(ctx: Ctx, leg: nat): LegStatus
    requires 1 <= leg <= LEGS
  {
    if ctx.IsFiat(ctx.Spec(leg).side) then Confirming else Signing
  }

  function StartRow(ctx: Ctx, leg: nat, attempt: nat): LegRow
    requires 1 <= leg <= LEGS
  {
    LegRow(leg, attempt, StartStatus(ctx, leg))
  }

  function Restatus(rows: seq<LegRow>, s: LegStatus): seq<LegRow>
    requires rows != []
  {
    rows[|rows| - 1 := Last(rows).(status := s)]
  }

  // ── The ledger half of a step ──

  lemma SameStart(ctx: Ctx, tb: Tb, tb': Tb, leg: nat)
    requires tb.accounts == tb'.accounts
    ensures CanStart(ctx, tb', leg) <==> CanStart(ctx, tb, leg)
  {
  }

  /** The expected log depends on the accounts only. */
  lemma {:induction false} SameExpected(ctx: Ctx, tb: Tb, tb': Tb, rows: seq<LegRow>)
    requires RowsReady(ctx, tb, rows) && tb.accounts == tb'.accounts
    ensures RowsReady(ctx, tb', rows) && Expected(ctx, tb', rows) == Expected(ctx, tb, rows)
  {
    forall i | 0 <= i < |rows| ensures CanStart(ctx, tb', rows[i].legSeq) {
      SameStart(ctx, tb, tb', rows[i].legSeq);
    }
    if rows != [] {
      SameExpected(ctx, tb, tb', Init(rows));
    }
  }

  /** Booking an attempt the history does not hold extends the accounted log by that row. */
  lemma BookLedger(ctx: Ctx, tb: Tb, rows: seq<LegRow>, row: LegRow)
    requires LedgerInv(ctx, rows, tb) && CanStart(ctx, tb, row.legSeq) && PhaseOf(row.status) == Pending
    requires forall i :: 0 <= i < |rows| ==> rows[i].legSeq != row.legSeq || rows[i].attempt != row.attempt
    ensures
      var spec := ctx.Spec(row.legSeq);
      var pend := InitiatePending(ctx, spec, spec.entries, row.attempt, tb);
      pend.ok && LedgerInv(ctx, rows + [row], pend.tb) && pend.tb.accounts == tb.accounts
  {
    NewAttemptIsFresh(ctx, tb, rows, row.legSeq, row.attempt);
    LegEntriesReady(ctx, tb, row.legSeq);
    InitiateAppends(ctx, ctx.Spec(row.legSeq), ctx.Spec(row.legSeq).entries, row.attempt, tb);
    assert Init(rows + [row]) == rows;
    SameExpected(ctx, tb, tb.(log := Expected(ctx, tb, rows + [row])), rows + [row]);
  }

  /** Posting or voiding the last row's attempt succeeds while it is in flight. */
  lemma ResolveLast(ctx: Ctx, tb: Tb, rows: seq<LegRow>, status: LegStatus)
    requires History(rows) && LedgerInv(ctx, rows, tb) && PhaseOf(Last(rows).status) == Pending
    ensures
      var r := Last(rows);
      var done := ResolveLeg(ctx, ctx.Spec(r.legSeq), ctx.Spec(r.legSeq).entries, r.attempt, tb, PhaseOf(status));
      done.ok && LedgerInv(ctx, Restatus(rows, status), done.tb) && done.tb.accounts == tb.accounts
  {
    var r := Last(rows);
    EarlierRowsDiffer(rows);
    NewAttemptIsFresh(ctx, tb, Init(rows), r.legSeq, r.attempt);
    LegEntriesReady(ctx, tb, r.legSeq);
    ResolveRewrites(ctx, ctx.Spec(r.legSeq), ctx.Spec(r.legSeq).entries, r.attempt, tb,
                    Expected(ctx, tb, Init(rows)), PhaseOf(status));
    RestatusLedger(ctx, tb, rows, status);
  }

  lemma EarlierRowsDiffer(rows: seq<LegRow>)
    requires History(rows)
    ensures forall i :: 0 <= i < |rows| - 1 ==>
      Init(rows)[i].legSeq != Last(rows).legSeq || Init(rows)[i].attempt != Last(rows).attempt
  {
    forall i | 0 <= i < |rows| - 1
      ensures Init(rows)[i].legSeq != Last(rows).legSeq || Init(rows)[i].attempt != Last(rows).attempt
    {
      HistoryOrder(rows, i);
    }
  }

  /** Rewriting the phase of the last row's transfers is what its new status accounts for. */
  lemma RestatusLedger(ctx: Ctx, tb: Tb, rows: seq<LegRow>, status: LegStatus)
    requires rows != [] && RowsReady(ctx, tb, rows)
    ensures
      var r := Last(rows);
      var tb' := tb.(log := Expected(ctx, tb, Init(rows)) + RowTransfers(ctx, tb, r.(status := status)));
      LedgerInv(ctx, Restatus(rows, status), tb')
  {
    var r := Last(rows);
    var tb' := tb.(log := Expected(ctx, tb, Init(rows)) + RowTransfers(ctx, tb, r.(status := status)));
    assert Init(Restatus(rows, status)) == Init(rows);
    SameExpected(ctx, tb, tb', Restatus(rows, status));
  }

  /** A hop within one phase changes nothing the ledger accounts for. */
  lemma SamePhaseLedger(ctx: Ctx, tb: Tb, rows: seq<LegRow>, status: LegStatus)
    requires rows != [] && LedgerInv(ctx, rows, tb) && PhaseOf(Last(rows).status) == PhaseOf(status)
    ensures LedgerInv(ctx, Restatus(rows, status), tb)
  {
    assert Init(Restatus(rows, status)) == Init(rows);
    assert RowTransfers(ctx, tb, Last(rows)) == RowTransfers(ctx, tb, Last(rows).(status := status));
  }

  // ── The rows half of a step ──

  lemma NewAttempt(rows: seq<LegRow>, row: LegRow)
    requires History(rows) && Linked(rows, row)
    ensures forall i :: 0 <= i < |rows| ==> rows[i].legSeq != row.legSeq || rows[i].attempt != row.attempt
  {
    forall i | 0 <= i < |rows| ensures rows[i].legSeq != row.legSeq || rows[i].attempt != row.attempt {
      if i < |rows| - 1 {
        HistoryOrder(rows, i);
      }
    }
  }

  lemma RowsBooked(ctx: Ctx, s: Swap, row: LegRow, audits: seq<Audit>)
    requires History(s.rows) && s.status == Processing && row.legSeq <= LEGS && Linked(s.rows, row)
    requires 1 <= row.legSeq && row.status == StartStatus(ctx, row.legSeq)
    requires s.audits + audits == Trail(s.rows) + LinkAudits(s.rows, row)
    ensures RowsInv(ctx, Recompute(s.(rows := s.rows + [row], audits := s.audits + audits)))
  {
    var s1 := s.(rows := s.rows + [row], audits := s.audits + audits);
    HistoryExtend(s.rows, row);
    assert Init(s1.rows) == s.rows && Last(s1.rows) == row;
    assert s1.audits + [] == s1.audits;
    RecomputeIsExact(s1);
  }

  /** Changing the last row's status keeps the history and its trail. */
  lemma RowsRestatus(rows: seq<LegRow>, status: LegStatus)
    requires History(rows)
    ensures History(Restatus(rows, status)) && Trail(Restatus(rows, status)) == Trail(rows)
    ensures Last(Restatus(rows, status)) == Last(rows).(status := status)
  {
    HistoryRestatus(rows, status);
    assert Init(Restatus(rows, status)) == Init(rows);
  }

  // ── Starting an attempt ──

  /** An attempt that can be booked, with its wallets found and its kind guessed right, starts. */
  lemma StartsInFlight(ctx: Ctx, s: Swap, tb: Tb, leg: nat, attempt: nat, audits: seq<Audit>)
    requires CanStart(ctx, tb, leg)
    requires InitiatePending(ctx, ctx.Spec(leg), ctx.Spec(leg).entries, attempt, tb).ok
    ensures CreateAndStart(ctx, s, tb, leg, attempt, audits)
         == Outcome(true, Recompute(s.(rows := s.rows + [StartRow(ctx, leg, attempt)], audits := s.audits + audits)),
                    InitiatePending(ctx, ctx.Spec(leg), ctx.Spec(leg).entries, attempt, tb).tb)
  {
  }

  /** The state between settling an attempt and starting the next one. */
  ghost predicate Settled(ctx: Ctx, s: Swap, tb: Tb) {
    History(s.rows) && s.status == Processing && LedgerInv(ctx, s.rows, tb)
  }

  /** Starting a linked attempt re-establishes the invariant. */
  lemma BookedKeepsInv(ctx: Ctx, s: Swap, tb: Tb, leg: nat, attempt: nat, audits: seq<Audit>)
    requires Settled(ctx, s, tb) && CanStart(ctx, tb, leg) && Linked(s.rows, StartRow(ctx, leg, attempt))
    requires s.audits + audits == Trail(s.rows) + LinkAudits(s.rows, StartRow(ctx, leg, attempt))
    ensures
      var o := CreateAndStart(ctx, s, tb, leg, attempt, audits);
      && o.ok && o.swap.rows == s.rows + [StartRow(ctx, leg, attempt)]
      && Inv(ctx, o.swap, o.tb) && o.tb.accounts == tb.accounts
  {
    var row := StartRow(ctx, leg, attempt);
    NewAttempt(s.rows, row);
    BookLedger(ctx, tb, s.rows, row);
    StartsInFlight(ctx, s, tb, leg, attempt, audits);
    RowsBooked(ctx, s, row, audits);
  }

  // ── One operation on the current attempt ──

  /** The swap is working on its last row. */
  ghost predicate Working(ctx: Ctx, s: Swap, tb: Tb) {
    Inv(ctx, s, tb) && InFlight(ctx.IsFiat(ctx.Spec(Last(s.rows).legSeq).side), Last(s.rows).status)
  }

  lemma WorkingFacts(ctx: Ctx, s: Swap, tb: Tb)
    requires Working(ctx, s, tb)
    ensures s.status == Processing && s.audits == Trail(s.rows) && PhaseOf(Last(s.rows).status) == Pending
  {
  }

  lemma WorkingRow(ctx: Ctx, s: Swap, tb: Tb)
    requires Working(ctx, s, tb)
    ensures s.rows != [] && 1 <= Last(s.rows).legSeq <= LEGS
  {
  }

  lemma HoppedRows(ctx: Ctx, s: Swap, status: LegStatus)
    requires RowsInv(ctx, s) && InFlight(ctx.IsFiat(ctx.Spec(Last(s.rows).legSeq).side), Last(s.rows).status)
    requires InFlight(ctx.IsFiat(ctx.Spec(Last(s.rows).legSeq).side), status)
          || (status == Cancelled && !ctx.IsFiat(ctx.Spec(Last(s.rows).legSeq).side))
    ensures RowsInv(ctx, s.(rows := Restatus(s.rows, status)))
  {
    RowsRestatus(s.rows, status);
    hide History, Trail, Restatus;
  }

  /** An intermediate hop, or a cancellation, leaves the ledger alone. */
  lemma HopKeepsInv(ctx: Ctx, s: Swap, tb: Tb, status: LegStatus)
    requires Working(ctx, s, tb)
    requires InFlight(ctx.IsFiat(ctx.Spec(Last(s.rows).legSeq).side), status)
          || (status == Cancelled && !ctx.IsFiat(ctx.Spec(Last(s.rows).legSeq).side))
    ensures Inv(ctx, s.(rows := Restatus(s.rows, status)), tb)
  {
    hide RowsInv, LedgerInv, Restatus, History;
    WorkingRow(ctx, s, tb);
    WorkingFacts(ctx, s, tb);
    HoppedRows(ctx, s, status);
    SamePhaseLedger(ctx, tb, s.rows, status);
  }

  /** Settling the last attempt: the ledger follows, and the swap is ready for its next row. */
  lemma SettleLast(ctx: Ctx, s: Swap, tb: Tb, status: LegStatus)
    requires Working(ctx, s, tb)
    ensures
      var r := Last(s.rows);
      var done := ResolveLeg(ctx, ctx.Spec(r.legSeq), ctx.Spec(r.legSeq).entries, r.attempt, tb, PhaseOf(status));
      done.ok && Settled(ctx, s.(rows := Restatus(s.rows, status)), done.tb) && done.tb.accounts == tb.accounts
    ensures Last(Restatus(s.rows, status)) == Last(s.rows).(status := status)
    ensures s.audits == Trail(Restatus(s.rows, status))
  {
    WorkingFacts(ctx, s, tb);
    ResolveLast(ctx, tb, s.rows, status);
    RowsRestatus(s.rows, status);
  }

  lemma RowsSuccess(ctx: Ctx, s: Swap, audits: seq<Audit>)
    requires History(s.rows) && Last(s.rows).legSeq == LEGS && Last(s.rows).status == Clear && s.status == Success
    requires s.audits == Trail(s.rows) + [LegPosted(LEGS, Last(s.rows).attempt), SwapSucceeded]
    ensures RowsInv(ctx, Recompute(s))
  {
    RecomputeIsExact(s);
  }

  lemma RowsParked(ctx: Ctx, s: Swap)
    requires History(s.rows) && Last(s.rows).status == NeedsReview && Last(s.rows).attempt >= MAX_LEG_ATTEMPTS
    requires s.status == Processing && s.audits == Trail(s.rows) + [LegStuck(Last(s.rows).legSeq, Last(s.rows).attempt)]
    ensures RowsInv(ctx, Recompute(s))
  {
    RecomputeIsExact(s);
  }

  /** Clearing the last leg posts it and ends the swap. */
  lemma SuccessKeepsInv(ctx: Ctx, s: Swap, tb: Tb)
    requires Working(ctx, s, tb) && Last(s.rows).legSeq == LEGS
    ensures
      var o := OnLegCleared(ctx, s.(rows := Restatus(s.rows, Clear)), tb, LEGS, Last(s.rows).attempt);
      && o.ok && o.swap.rows == Restatus(s.rows, Clear)
      && Inv(ctx, o.swap, o.tb) && o.tb.accounts == tb.accounts
  {
    var posted := LegPosted(LEGS, Last(s.rows).attempt);
    SettleLast(ctx, s, tb, Clear);
    var s1 := s.(rows := Restatus(s.rows, Clear), status := Success, audits := s.audits + [posted] + [SwapSucceeded]);
    assert s1.audits == s.audits + [posted, SwapSucceeded];
    RowsSuccess(ctx, s1, [posted]);
  }

  /** Once an earlier leg is posted, the next one starts. */
  lemma NextStarts(ctx: Ctx, s: Swap, post: TbOut) returns (o: Outcome)
    requires post.ok && Settled(ctx, s, post.tb) && s.audits == Trail(s.rows)
    requires Last(s.rows).status == Clear && CanStart(ctx, post.tb, Last(s.rows).legSeq + 1)
    ensures o == AfterPost(ctx, s, post, Last(s.rows).legSeq, Last(s.rows).attempt)
    ensures o.ok && Inv(ctx, o.swap, o.tb) && o.tb.accounts == post.tb.accounts
    ensures o.swap.rows == s.rows + [StartRow(ctx, Last(s.rows).legSeq + 1, 1)]
  {
    hide Settled, CanStart, LedgerInv, Inv, CreateAndStart, Trail, Linked, LinkAudits;
    PostedFacts(ctx, s, post.tb);
    var r := Last(s.rows);
    var s1 := s.(audits := s.audits + [LegPosted(r.legSeq, r.attempt)]);
    o := CreateAndStart(ctx, s1, post.tb, r.legSeq + 1, 1, []);
    BookedKeepsInv(ctx, s1, post.tb, r.legSeq + 1, 1, []);
  }

  lemma PostedFacts(ctx: Ctx, s: Swap, tb: Tb)
    requires Settled(ctx, s, tb) && s.audits == Trail(s.rows)
    requires Last(s.rows).status == Clear && CanStart(ctx, tb, Last(s.rows).legSeq + 1)
    ensures s.rows != []
    ensures
      var r := Last(s.rows);
      var s1 := s.(audits := s.audits + [LegPosted(r.legSeq, r.attempt)]);
      var row := StartRow(ctx, r.legSeq + 1, 1);
      && r.legSeq < LEGS && Settled(ctx, s1, tb) && Linked(s.rows, row)
      && s1.audits + [] == Trail(s.rows) + LinkAudits(s.rows, row)
  {
    assert s.rows != [];
    hide LedgerInv, History, Trail;
    var s1 := s.(audits := s.audits + [LegPosted(Last(s.rows).legSeq, Last(s.rows).attempt)]);
    assert s1.audits + [] == s1.audits;
  }

  /** Clearing an earlier leg posts it and starts the next one. */
  lemma ChainKeepsInv(ctx: Ctx, s: Swap, tb: Tb)
    requires Working(ctx, s, tb) && CanStart(ctx, tb, Last(s.rows).legSeq + 1)
    ensures
      var r := Last(s.rows);
      var o := OnLegCleared(ctx, s.(rows := Restatus(s.rows, Clear)), tb, r.legSeq, r.attempt);
      && o.ok && Inv(ctx, o.swap, o.tb) && o.tb.accounts == tb.accounts
      && o.swap.rows == Restatus(s.rows, Clear) + [StartRow(ctx, r.legSeq + 1, 1)]
  {
    var r := Last(s.rows);
    SettleLast(ctx, s, tb, Clear);
    hide CanStart, LedgerInv, Inv, AfterPost, Trail, Settled;
    var post := ResolveLeg(ctx, ctx.Spec(r.legSeq), ctx.Spec(r.legSeq).entries, r.attempt, tb, Posted);
    SameStart(ctx, tb, post.tb, r.legSeq + 1);
    var o := NextStarts(ctx, s.(rows := Restatus(s.rows, Clear)), post);
  }

  lemma SelfHealRetries(ctx: Ctx, s: Swap, voided: TbOut)
    requires voided.ok && s.rows != [] && 1 <= Last(s.rows).legSeq <= LEGS && Last(s.rows).attempt < MAX_LEG_ATTEMPTS
    ensures
      var r := Last(s.rows);
      SelfHeal(ctx, s, voided, |s.rows| - 1)
      == CreateAndStart(ctx, s, voided.tb, r.legSeq, r.attempt + 1, [LegRetried(r.legSeq, r.attempt)])
  {
  }

  /** A failing attempt is voided before anything else happens. */
  lemma FailureSettles(ctx: Ctx, s: Swap, tb: Tb, status: LegStatus) returns (s1: Swap, voided: TbOut)
    requires Working(ctx, s, tb) && TerminalFail(status)
    ensures s1 == s.(rows := Restatus(s.rows, status)) && |s1.rows| == |s.rows|
    ensures Last(s1.rows) == Last(s.rows).(status := status)
    ensures voided.ok && Settled(ctx, s1, voided.tb) && s1.audits == Trail(s1.rows)
    ensures voided.tb.accounts == tb.accounts
    ensures OnLegFailed(ctx, s1, tb, |s.rows| - 1) == SelfHeal(ctx, s1, voided, |s1.rows| - 1)
  {
    var r := Last(s.rows);
    SettleLast(ctx, s, tb, status);
    assert |Restatus(s.rows, status)| == |s.rows|;
    hide Settled, Trail, Restatus, Working, ResolveLeg, SelfHeal;
    s1 := s.(rows := Restatus(s.rows, status));
    voided := ResolveLeg(ctx, ctx.Spec(r.legSeq), ctx.Spec(r.legSeq).entries, r.attempt, tb, Voided);
  }

  predicate Begins(ctx: Ctx, s: Swap, earlier: seq<LegRow>, leg: nat, attempt: nat) {
    1 <= leg <= LEGS && s.rows == earlier + [StartRow(ctx, leg, attempt)]
  }

  lemma LastCanStart(ctx: Ctx, tb: Tb, rows: seq<LegRow>)
    requires rows != [] && RowsReady(ctx, tb, rows)
    ensures CanStart(ctx, tb, Last(rows).legSeq)
  {
  }

  lemma RetryFacts(ctx: Ctx, s: Swap, tb: Tb)
    requires Settled(ctx, s, tb) && TerminalFail(Last(s.rows).status) && Last(s.rows).attempt < MAX_LEG_ATTEMPTS
    ensures s.rows != []
    ensures
      var r := Last(s.rows);
      var row := StartRow(ctx, r.legSeq, r.attempt + 1);
      && 1 <= r.legSeq <= LEGS && CanStart(ctx, tb, r.legSeq) && Linked(s.rows, row)
      && LinkAudits(s.rows, row) == [LegRetried(r.legSeq, r.attempt)]
  {
    LastCanStart(ctx, tb, s.rows);
    hide CanStart, LedgerInv, History;
  }

  lemma Retries(ctx: Ctx, s: Swap, voided: TbOut) returns (o: Outcome)
    requires voided.ok && Settled(ctx, s, voided.tb) && s.audits == Trail(s.rows)
    requires TerminalFail(Last(s.rows).status) && Last(s.rows).attempt < MAX_LEG_ATTEMPTS
    ensures o == SelfHeal(ctx, s, voided, |s.rows| - 1)
    ensures o.ok && Inv(ctx, o.swap, o.tb) && o.tb.accounts == voided.tb.accounts
    ensures Begins(ctx, o.swap, s.rows, Last(s.rows).legSeq, Last(s.rows).attempt + 1)
  {
    hide Inv, CanStart, CreateAndStart, Trail, SelfHeal, Settled, Linked, LinkAudits, TerminalFail;
    RetryFacts(ctx, s, voided.tb);
    var r := Last(s.rows);
    SelfHealRetries(ctx, s, voided);
    o := CreateAndStart(ctx, s, voided.tb, r.legSeq, r.attempt + 1, [LegRetried(r.legSeq, r.attempt)]);
    BookedKeepsInv(ctx, s, voided.tb, r.legSeq, r.attempt + 1, [LegRetried(r.legSeq, r.attempt)]);
  }

  /** A failure before attempt 3 voids the attempt and starts the next one. */
  lemma RetryKeepsInv(ctx: Ctx, s: Swap, tb: Tb, status: LegStatus) returns (o: Outcome)
    requires Working(ctx, s, tb) && TerminalFail(status) && Last(s.rows).attempt < MAX_LEG_ATTEMPTS
    ensures o == OnLegFailed(ctx, s.(rows := Restatus(s.rows, status)), tb, |s.rows| - 1)
    ensures o.ok && Inv(ctx, o.swap, o.tb) && o.tb.accounts == tb.accounts
    ensures Begins(ctx, o.swap, Restatus(s.rows, status), Last(s.rows).legSeq, Last(s.rows).attempt + 1)
  {
    hide Inv, OnLegFailed, SelfHeal, Settled, Trail, Restatus;
    var s1, voided := FailureSettles(ctx, s, tb, status);
    o := Retries(ctx, s1, voided);
  }

  lemma Parks(ctx: Ctx, s: Swap, voided: TbOut)
    requires voided.ok && Settled(ctx, s, voided.tb) && s.audits == Trail(s.rows)
    requires TerminalFail(Last(s.rows).status) && Last(s.rows).attempt >= MAX_LEG_ATTEMPTS
    ensures
      var o := SelfHeal(ctx, s, voided, |s.rows| - 1);
      && o.ok && o.swap.rows == Restatus(s.rows, NeedsReview)
      && Inv(ctx, o.swap, o.tb) && o.tb.accounts == voided.tb.accounts
  {
    var stuck := LegStuck(Last(s.rows).legSeq, Last(s.rows).attempt);
    RowsRestatus(s.rows, NeedsReview);
    SamePhaseLedger(ctx, voided.tb, s.rows, NeedsReview);
    RowsParked(ctx, s.(rows := Restatus(s.rows, NeedsReview), audits := s.audits + [stuck]));
  }

  /** A failure from attempt 3 on voids the attempt and parks the leg for review. */
  lemma StuckKeepsInv(ctx: Ctx, s: Swap, tb: Tb, status: LegStatus)
    requires Working(ctx, s, tb) && TerminalFail(status) && Last(s.rows).attempt >= MAX_LEG_ATTEMPTS
    ensures
      var o := OnLegFailed(ctx, s.(rows := Restatus(s.rows, status)), tb, |s.rows| - 1);
      && o.ok && o.swap.rows == Restatus(s.rows, NeedsReview)
      && Inv(ctx, o.swap, o.tb) && o.tb.accounts == tb.accounts
  {
    var s1, voided := FailureSettles(ctx, s, tb, status);
    Parks(ctx, s1, voided);
    assert Restatus(Restatus(s.rows, status), NeedsReview) == Restatus(s.rows, NeedsReview);
  }

  lemma ResumeIsStart(ctx: Ctx, s: Swap, tb: Tb)
    requires History(s.rows) && s.status == Processing && Last(s.rows).status == NeedsReview
    ensures
      var r := Last(s.rows);
      ResumeBody(ctx, s, tb, r.legSeq)
      == CreateAndStart(ctx, s, tb, r.legSeq, r.attempt + 1, [LegResumed(r.legSeq, r.attempt + 1)])
  {
    hide CreateAndStart;
    ActiveFacts(s.rows, Last(s.rows).legSeq);
  }

  lemma ResumeAudits(s: Swap, row: LegRow)
    requires s.rows != [] && s.audits == Trail(s.rows) + ClosingAudits(Last(s.rows))
    requires Last(s.rows).status == NeedsReview && Linked(s.rows, row)
    ensures s.audits + [LegResumed(row.legSeq, row.attempt)] == Trail(s.rows) + LinkAudits(s.rows, row)
  {
  }

  lemma ParkedIsSettled(ctx: Ctx, s: Swap, tb: Tb)
    requires Inv(ctx, s, tb) && Last(s.rows).status == NeedsReview
    ensures Settled(ctx, s, tb) && s.rows != [] && CanStart(ctx, tb, Last(s.rows).legSeq)
    ensures s.audits == Trail(s.rows) + ClosingAudits(Last(s.rows)) && Last(s.rows).attempt >= MAX_LEG_ATTEMPTS
  {
    LastCanStart(ctx, tb, s.rows);
    hide LedgerInv, CanStart;
  }

  /** Resuming a parked leg starts its next attempt. */
  lemma ResumeKeepsInv(ctx: Ctx, s: Swap, tb: Tb)
    requires Inv(ctx, s, tb) && Last(s.rows).status == NeedsReview
    ensures
      var r := Last(s.rows);
      var o := ResumeBody(ctx, s, tb, r.legSeq);
      && o.ok && Inv(ctx, o.swap, o.tb) && o.tb.accounts == tb.accounts
      && o.swap.rows == s.rows + [StartRow(ctx, r.legSeq, r.attempt + 1)]
  {
    hide LedgerInv, CreateAndStart, ResumeBody, CanStart, Trail, History;
    ParkedIsSettled(ctx, s, tb);
    var r := Last(s.rows);
    var row := StartRow(ctx, r.legSeq, r.attempt + 1);
    ResumeAudits(s, row);
    BookedKeepsInv(ctx, s, tb, r.legSeq, r.attempt + 1, [LegResumed(r.legSeq, r.attempt + 1)]);
    ResumeIsStart(ctx, s, tb);
  }
}
