/** Whole runs of a swap: every operation, accepted or refused, in any order. Creation is over accounts
    without the no-overdraft flag here; SwapCover and SwapCoverRuns have it with flagged payables. */
module SwapRuns {
  import opened Prelude
  import opened Ledger
  import opened SwapModel
  import opened SwapLedger
  import opened SwapInvariant
  import opened SwapSteps

  // ── What each operation does to a swap that meets the invariant ──

  /** The workflow's reaction to the current attempt reaching `next`. */
  function React(ctx: Ctx, s: Swap, tb: Tb, next: LegStatus): Outcome
    requires s.rows != [] && 1 <= Last(s.rows).legSeq <= LEGS
  {
    var s1 := s.(rows := Restatus(s.rows, next));
    if next == Clear then OnLegCleared(ctx, s1, tb, Last(s.rows).legSeq, Last(s.rows).attempt)
    else if TerminalFail(next) then OnLegFailed(ctx, s1, tb, |s.rows| - 1)
    else Outcome(true, s1, tb)
  }

  lemma AdvanceCurrent(ctx: Ctx, s: Swap, tb: Tb, action: LegAction)
    requires Inv(ctx, s, tb) && s.status == Processing
    ensures
      var r := Last(s.rows);
      var next := Transition(ctx.IsFiat(ctx.Spec(r.legSeq).side), r.status, action);
      AdvanceBody(ctx, s, tb, r.legSeq, action)
      == if next.None? then Throw(s, tb) else React(ctx, s, tb, next.value)
  {
    ActiveFacts(s.rows, Last(s.rows).legSeq);
    NoPriorOpen(s.rows, |s.rows|, Last(s.rows).legSeq);
    assert 1 <= Last(s.rows).legSeq <= LEGS && Last(s.rows).status != Created;
    hide Inv, History, AdvanceBody, Follow, React, Active, PriorOpen;
    AdvanceFollows(ctx, s, tb, action);
    var next := Transition(ctx.IsFiat(ctx.Spec(Last(s.rows).legSeq).side), Last(s.rows).status, action);
    if next.Some? {
      FollowIsReact(ctx, s, tb, next.value);
    }
  }

  lemma AdvanceFollows(ctx: Ctx, s: Swap, tb: Tb, action: LegAction)
    requires s.rows != [] && s.status == Processing
    requires 1 <= Last(s.rows).legSeq <= LEGS && Last(s.rows).status != Created
    requires Active(s.rows, Last(s.rows).legSeq) == |s.rows| - 1
    requires !PriorOpen(s.rows, |s.rows|, Last(s.rows).legSeq)
    ensures
      var r := Last(s.rows);
      var next := Transition(ctx.IsFiat(ctx.Spec(r.legSeq).side), r.status, action);
      AdvanceBody(ctx, s, tb, r.legSeq, action)
      == if next.None? then Throw(s, tb) else Follow(ctx, s, tb, |s.rows| - 1, next.value)
  {
    hide Follow, InitiatePending, Transition;
  }

  lemma FollowIsReact(ctx: Ctx, s: Swap, tb: Tb, next: LegStatus)
    requires s.rows != [] && 1 <= Last(s.rows).legSeq <= LEGS
    ensures Follow(ctx, s, tb, |s.rows| - 1, next) == React(ctx, s, tb, next)
  {
    hide OnLegCleared, OnLegFailed;
  }

  /** History is append-only: no row disappears, only the last one can change, and only in status. */
  predicate Grows(a: seq<LegRow>, b: seq<LegRow>) {
    && 0 < |a| <= |b|
    && b[..|a| - 1] == a[..|a| - 1]
    && b[|a| - 1].legSeq == Last(a).legSeq && b[|a| - 1].attempt == Last(a).attempt
  }

  lemma GrowsByHop(rows: seq<LegRow>, status: LegStatus)
    requires rows != []
    ensures Grows(rows, Restatus(rows, status))
  {
  }

  lemma GrowsByRow(rows: seq<LegRow>, status: LegStatus, row: LegRow)
    requires rows != []
    ensures Grows(rows, Restatus(rows, status) + [row])
  {
  }

  /** Where an attempt in flight can go. */
  lemma TransitionKinds(isFiat: bool, status: LegStatus, action: LegAction, next: LegStatus)
    requires InFlight(isFiat, status) && Transition(isFiat, status, action) == Some(next)
    ensures next == Clear || TerminalFail(next) || InFlight(isFiat, next) || (next == Cancelled && !isFiat)
    ensures !(next == Clear && TerminalFail(next))
  {
  }

  /** Nothing is to start after the last row's leg, or it can. */
  predicate NextCanStart(ctx: Ctx, s: Swap, tb: Tb)
    requires s.rows != []
  {
    Last(s.rows).legSeq == LEGS || CanStart(ctx, tb, Last(s.rows).legSeq + 1)
  }

  lemma ReactKeepsInv(ctx: Ctx, s: Swap, tb: Tb, action: LegAction, next: LegStatus)
    requires Working(ctx, s, tb) && (next == Clear ==> NextCanStart(ctx, s, tb))
    requires Transition(ctx.IsFiat(ctx.Spec(Last(s.rows).legSeq).side), Last(s.rows).status, action) == Some(next)
    ensures
      var o := React(ctx, s, tb, next);
      o.ok && Inv(ctx, o.swap, o.tb) && o.tb.accounts == tb.accounts && Grows(s.rows, o.swap.rows)
  {
    var r := Last(s.rows);
    TransitionKinds(ctx.IsFiat(ctx.Spec(r.legSeq).side), r.status, action, next);
    if next == Clear {
      ReactToClear(ctx, s, tb);
    } else if TerminalFail(next) {
      if r.attempt < MAX_LEG_ATTEMPTS {
        ReactByRetry(ctx, s, tb, next);
      } else {
        ReactByParking(ctx, s, tb, next);
      }
    } else {
      HopKeepsInv(ctx, s, tb, next);
      GrowsByHop(s.rows, next);
    }
  }

  lemma ReactToClear(ctx: Ctx, s: Swap, tb: Tb)
    requires Working(ctx, s, tb) && NextCanStart(ctx, s, tb)
    ensures
      var o := React(ctx, s, tb, Clear);
      o.ok && Inv(ctx, o.swap, o.tb) && o.tb.accounts == tb.accounts && Grows(s.rows, o.swap.rows)
  {
    var r := Last(s.rows);
    if r.legSeq == LEGS {
      SuccessKeepsInv(ctx, s, tb);
      GrowsByHop(s.rows, Clear);
    } else {
      ChainKeepsInv(ctx, s, tb);
      GrowsByRow(s.rows, Clear, StartRow(ctx, r.legSeq + 1, 1));
    }
  }

  lemma ReactByRetry(ctx: Ctx, s: Swap, tb: Tb, next: LegStatus)
    requires Working(ctx, s, tb) && TerminalFail(next) && Last(s.rows).attempt < MAX_LEG_ATTEMPTS
    ensures
      var o := React(ctx, s, tb, next);
      o.ok && Inv(ctx, o.swap, o.tb) && o.tb.accounts == tb.accounts && Grows(s.rows, o.swap.rows)
  {
    hide Inv, OnLegFailed, OnLegCleared;
    WorkingRow(ctx, s, tb);
    var o := RetryKeepsInv(ctx, s, tb, next);
    hide Working;
    GrowsByRow(s.rows, next, StartRow(ctx, Last(s.rows).legSeq, Last(s.rows).attempt + 1));
  }

  lemma ReactByParking(ctx: Ctx, s: Swap, tb: Tb, next: LegStatus)
    requires Working(ctx, s, tb) && TerminalFail(next) && Last(s.rows).attempt >= MAX_LEG_ATTEMPTS
    ensures
      var o := React(ctx, s, tb, next);
      o.ok && Inv(ctx, o.swap, o.tb) && o.tb.accounts == tb.accounts && Grows(s.rows, o.swap.rows)
  {
    StuckKeepsInv(ctx, s, tb, next);
    GrowsByHop(s.rows, NeedsReview);
  }

  // ── A clear leg cannot be undone ──

  lemma {:induction false} HistoryPrefix(rows: seq<LegRow>, i: nat)
    requires History(rows) && i < |rows|
    ensures History(rows[..i + 1])
  {
    if i < |rows| - 1 {
      HistoryPrefix(Init(rows), i);
      assert Init(rows)[..i + 1] == rows[..i + 1];
    } else {
      assert rows[..i + 1] == rows;
    }
  }

  lemma {:induction false} ExpectedPrefix(ctx: Ctx, tb: Tb, rows: seq<LegRow>, k: nat) returns (rest: seq<Transfer>)
    requires RowsReady(ctx, tb, rows) && k <= |rows|
    ensures Expected(ctx, tb, rows) == Expected(ctx, tb, rows[..k]) + rest
  {
    if k == |rows| {
      rest := [];
      assert rows[..k] == rows;
    } else {
      var r := ExpectedPrefix(ctx, tb, Init(rows), k);
      assert Init(rows)[..k] == rows[..k];
      var last := RowTransfers(ctx, tb, Last(rows));
      rest := r + last;
      AppendAssociates(Expected(ctx, tb, rows[..k]), r, last);
    }
  }

  /** The ledger has posted or voided the row's attempt. */
  predicate Spent(ctx: Ctx, log: seq<Transfer>, r: LegRow) {
    && 1 <= r.legSeq <= LEGS && ctx.Spec(r.legSeq).entries != [] && ctx.LegAmount(r.legSeq) > 0
    && var id := ctx.Id(ctx.Spec(r.legSeq).entries[0].event, r.attempt);
       Has(log, id) && log[IndexOf(log, id)].phase != Pending
  }

  /** A spent attempt cannot be resolved again, and trying changes nothing. */
  lemma SpentCannotResolve(ctx: Ctx, tb: Tb, r: LegRow, outcome: Phase)
    requires Spent(ctx, tb.log, r)
    ensures ResolveLeg(ctx, ctx.Spec(r.legSeq), ctx.Spec(r.legSeq).entries, r.attempt, tb, outcome) == TbOut(false, tb)
  {
  }

  /** A row's own ids were free before it. */
  lemma EarlierIsFresh(ctx: Ctx, tb: Tb, rows: seq<LegRow>, i: nat)
    requires History(rows) && RowsReady(ctx, tb, rows) && i < |rows|
    ensures Fresh(ctx, Expected(ctx, tb, rows[..i]), ctx.Spec(rows[i].legSeq).entries, rows[i].attempt)
  {
    var leg, attempt := rows[i].legSeq, rows[i].attempt;
    HistoryPrefix(rows, i);
    forall j | 0 <= j < i ensures rows[..i][j].legSeq != leg || rows[..i][j].attempt != attempt {
      HistoryOrder(rows[..i + 1], j);
    }
    hide Fresh, History;
    NewAttemptIsFresh(ctx, tb, rows[..i], leg, attempt);
  }

  lemma BatchAt(ctx: Ctx, tb: Tb, rows: seq<LegRow>, i: nat) returns (rest: seq<Transfer>)
    requires RowsReady(ctx, tb, rows) && i < |rows|
    ensures Expected(ctx, tb, rows) == Expected(ctx, tb, rows[..i]) + RowTransfers(ctx, tb, rows[i]) + rest
  {
    rest := ExpectedPrefix(ctx, tb, rows, i + 1);
    assert rows[..i + 1][..i] == rows[..i];
  }

  /** Every clear leg but the last is spent, whatever was recorded after the rows' own transfers. */
  lemma ClearIsSpent(ctx: Ctx, tb: Tb, rows: seq<LegRow>, i: nat, more: seq<Transfer>)
    requires History(rows) && RowsReady(ctx, tb, rows) && tb.log == Expected(ctx, tb, rows) + more
    requires i < |rows| && rows[i].status == Clear && ctx.LegAmount(rows[i].legSeq) > 0
    ensures Spent(ctx, tb.log, rows[i])
  {
    var leg := rows[i].legSeq;
    EarlierIsFresh(ctx, tb, rows, i);
    var rest := BatchAt(ctx, tb, rows, i);
    hide History, Expected, Fresh, Has;
    LegEntriesReady(ctx, tb, leg);
    assert SpecOk(ctx.plan, leg);
    var before, batch := Expected(ctx, tb, rows[..i]), RowTransfers(ctx, tb, rows[i]);
    AppendAssociates(before + batch, rest, more);
    FirstOfBatch(ctx, ctx.Spec(leg), ctx.Spec(leg).entries, rows[i].attempt, tb.log, before, rest + more, Posted);
  }

  /** A clear leg cannot be voided. */
  lemma VoidingClearFails(ctx: Ctx, tb: Tb, rows: seq<LegRow>, i: nat)
    requires History(rows) && LedgerInv(ctx, rows, tb)
    requires i < |rows| - 1 && rows[i].status == Clear && ctx.LegAmount(rows[i].legSeq) > 0
    ensures
      var spec := ctx.Spec(rows[i].legSeq);
      ResolveLeg(ctx, spec, spec.entries, rows[i].attempt, tb, Voided) == TbOut(false, tb)
  {
    assert tb.log == Expected(ctx, tb, rows) + [];
    ClearIsSpent(ctx, tb, rows, i, []);
    SpentCannotResolve(ctx, tb, rows[i], Voided);
  }

  /** An action on a leg already clear is refused, a return of a clear fiat leg included. */
  lemma AdvanceEarlierRefused(ctx: Ctx, s: Swap, tb: Tb, leg: nat, action: LegAction)
    requires Inv(ctx, s, tb) && 1 <= leg < Last(s.rows).legSeq && ctx.LegAmount(leg) > 0
    ensures !AdvanceBody(ctx, s, tb, leg, action).ok && AdvanceBody(ctx, s, tb, leg, action).tb == tb
  {
    ActiveFacts(s.rows, leg);
    VoidingClearFails(ctx, tb, s.rows, Active(s.rows, leg));
    ClearLegRefuses(ctx, s, tb, leg, action);
  }

  /** All that could happen to a clear leg is a return, which starts by voiding it. */
  lemma ClearLegRefuses(ctx: Ctx, s: Swap, tb: Tb, leg: nat, action: LegAction)
    requires ActiveIs(s.rows, leg, Clear) && 1 <= leg <= LEGS
    requires var r := s.rows[Active(s.rows, leg)];
      ResolveLeg(ctx, ctx.Spec(leg), ctx.Spec(leg).entries, r.attempt, tb, Voided) == TbOut(false, tb)
    ensures !AdvanceBody(ctx, s, tb, leg, action).ok && AdvanceBody(ctx, s, tb, leg, action).tb == tb
  {
    var i := Active(s.rows, leg);
    var s1 := s.(rows := s.rows[i := s.rows[i].(status := Returned)]);
    assert s1.rows[i].legSeq == leg && s1.rows[i].attempt == s.rows[i].attempt;
  }

  /** The other half: returning a clear fiat leg is accepted exactly when its amount rounds to
      nothing in minor units, for then there is nothing to void; and that ruins the row history. */
  lemma ClearReturnIff(ctx: Ctx, s: Swap, tb: Tb, leg: nat)
    requires Inv(ctx, s, tb) && 1 <= leg < Last(s.rows).legSeq && ctx.IsFiat(ctx.Spec(leg).side)
    requires s.status == Processing
    ensures AdvanceBody(ctx, s, tb, leg, Return).ok <==> ctx.LegAmount(leg) == 0
    ensures ctx.LegAmount(leg) == 0 ==> !History(AdvanceBody(ctx, s, tb, leg, Return).swap.rows)
  {
    assert leg <= LEGS;
    hide AdvanceBody, History, Transition;
    if ctx.LegAmount(leg) > 0 {
      AdvanceEarlierRefused(ctx, s, tb, leg, Return);
    } else {
      EmptyReturn(ctx, s, tb, leg);
    }
  }

  lemma EmptyFacts(ctx: Ctx, s: Swap, tb: Tb, leg: nat)
    requires Inv(ctx, s, tb) && 1 <= leg < Last(s.rows).legSeq
    ensures s.rows != [] && leg <= LEGS
    ensures
      var i := Active(s.rows, leg);
      && 0 <= i < |s.rows| - 1 && s.rows[i].legSeq == leg && s.rows[i].status == Clear
      && s.rows[i].legSeq < s.rows[i + 1].legSeq && History(s.rows) && CanStart(ctx, tb, leg)
  {
    NextRowFollows(s.rows, leg);
    hide History, CanStart, Active;
  }

  lemma EmptyReturn(ctx: Ctx, s: Swap, tb: Tb, leg: nat)
    requires Inv(ctx, s, tb) && 1 <= leg < Last(s.rows).legSeq && ctx.IsFiat(ctx.Spec(leg).side)
    requires s.status == Processing && ctx.LegAmount(leg) == 0
    ensures
      var o := AdvanceBody(ctx, s, tb, leg, Return);
      o.ok && !History(o.swap.rows)
  {
    hide CanStart, AdvanceBody, OnLegFailed, Inv, History, Active, StartRow;
    EmptyFacts(ctx, s, tb, leg);
    var s1 := ReturnVoids(ctx, s, tb, leg);
    EmptyFails(ctx, s.rows, s1, tb, Active(s.rows, leg));
  }

  lemma EmptyFails(ctx: Ctx, rows: seq<LegRow>, s1: Swap, tb: Tb, i: nat)
    requires History(rows) && i < |rows| - 1 && 1 <= rows[i].legSeq < Last(rows).legSeq && rows[i].status == Clear
    requires rows[i].legSeq < rows[i + 1].legSeq && s1.rows == rows[i := rows[i].(status := Returned)]
    requires CanStart(ctx, tb, rows[i].legSeq) && ctx.LegAmount(rows[i].legSeq) == 0
    ensures OnLegFailed(ctx, s1, tb, i).ok && !History(OnLegFailed(ctx, s1, tb, i).swap.rows)
  {
    hide CanStart, OnLegFailed, History;
    assert s1.rows[i] == rows[i].(status := Returned);
    NothingToVoid(ctx, s1, tb, i);
    Ruined(ctx, rows, i);
  }

  lemma Ruined(ctx: Ctx, rows: seq<LegRow>, i: nat)
    requires History(rows) && i < |rows| - 1 && 1 <= rows[i].legSeq < Last(rows).legSeq && rows[i].status == Clear
    requires rows[i].legSeq < rows[i + 1].legSeq
    ensures
      var returned := rows[i := rows[i].(status := Returned)];
      var r := rows[i];
      && !History(returned + [StartRow(ctx, r.legSeq, r.attempt + 1)])
      && !History(returned[i := r.(status := NeedsReview)])
  {
    hide History;
    RuinedByRow(rows, i, Returned, StartRow(ctx, rows[i].legSeq, rows[i].attempt + 1));
    RuinedByStatus(rows, i, NeedsReview);
    assert rows[i := rows[i].(status := Returned)][i := rows[i].(status := NeedsReview)]
        == rows[i := rows[i].(status := NeedsReview)];
  }

  lemma ReturnVoids(ctx: Ctx, s: Swap, tb: Tb, leg: nat) returns (s1: Swap)
    requires History(s.rows) && s.status == Processing
    requires 1 <= leg < Last(s.rows).legSeq && ctx.IsFiat(ctx.Spec(leg).side)
    ensures Active(s.rows, leg) >= 0
    ensures
      var i := Active(s.rows, leg);
      && s1 == s.(rows := s.rows[i := s.rows[i].(status := Returned)])
      && AdvanceBody(ctx, s, tb, leg, Return) == OnLegFailed(ctx, s1, tb, i)
  {
    ActiveFacts(s.rows, leg);
    NoPriorOpen(s.rows, |s.rows|, leg);
    var i := Active(s.rows, leg);
    s1 := s.(rows := s.rows[i := s.rows[i].(status := Returned)]);
    hide OnLegFailed, OnLegCleared, History;
  }

  lemma NothingToVoid(ctx: Ctx, s: Swap, tb: Tb, i: nat)
    requires i < |s.rows| && CanStart(ctx, tb, s.rows[i].legSeq) && ctx.LegAmount(s.rows[i].legSeq) == 0
    ensures OnLegFailed(ctx, s, tb, i).ok
    ensures
      var r := s.rows[i];
      OnLegFailed(ctx, s, tb, i).swap.rows
      == if r.attempt < MAX_LEG_ATTEMPTS then s.rows + [StartRow(ctx, r.legSeq, r.attempt + 1)]
         else s.rows[i := r.(status := NeedsReview)]
  {
    var r := s.rows[i];
    if r.attempt < MAX_LEG_ATTEMPTS {
      StartsInFlight(ctx, s, tb, r.legSeq, r.attempt + 1, [LegRetried(r.legSeq, r.attempt)]);
    }
  }

  /** A leg behind the current one cannot be tried again. */
  lemma RuinedByRow(rows: seq<LegRow>, i: nat, status: LegStatus, row: LegRow)
    requires History(rows) && i < |rows| - 1 && row.legSeq < Last(rows).legSeq
    ensures !History(rows[i := rows[i].(status := status)] + [row])
  {
    var before := rows[i := rows[i].(status := status)];
    assert Init(before + [row]) == before && Last(before) == Last(rows);
  }

  lemma NextLinked(rows: seq<LegRow>, k: nat)
    requires k + 1 < |rows|
    ensures History(rows) ==> Linked(rows[..k + 1], rows[k + 1])
  {
    if History(rows) {
      HistoryPrefix(rows, k + 1);
      assert Init(rows[..k + 2]) == rows[..k + 1];
    }
  }

  /** Nor can it leave the clear status. */
  lemma RuinedByStatus(rows: seq<LegRow>, i: nat, status: LegStatus)
    requires i < |rows| - 1 && status == NeedsReview && rows[i].legSeq < rows[i + 1].legSeq
    ensures !History(rows[i := rows[i].(status := status)])
  {
    var after := rows[i := rows[i].(status := status)];
    assert Last(after[..i + 1]) == after[i] && after[i + 1] == rows[i + 1];
    NextLinked(after, i);
  }

  /** The active row of an earlier leg is followed by a row of the next. */
  lemma {:induction false} NextRowFollows(rows: seq<LegRow>, leg: nat)
    requires History(rows) && 1 <= leg < Last(rows).legSeq
    ensures 0 <= Active(rows, leg) < |rows| - 1
    ensures rows[Active(rows, leg)].status == Clear && rows[Active(rows, leg) + 1].legSeq == leg + 1
  {
    ActiveFacts(rows, leg);
    ActiveFacts(Init(rows), leg);
    if leg < Last(Init(rows)).legSeq {
      NextRowFollows(Init(rows), leg);
    }
  }

  lemma {:induction false} NoSuchLeg(rows: seq<LegRow>)
    requires LegsInRange(rows)
    ensures Active(rows, 0) == -1
  {
  }

  predicate AdvanceRefused(ctx: Ctx, s: Swap, tb: Tb, leg: nat, action: LegAction) {
    !AdvanceBody(ctx, s, tb, leg, action).ok && AdvanceBody(ctx, s, tb, leg, action).tb == tb
  }

  lemma AbsentLegRefuses(ctx: Ctx, s: Swap, tb: Tb, leg: nat, action: LegAction)
    requires Inv(ctx, s, tb) && (leg == 0 || leg > Last(s.rows).legSeq)
    ensures AdvanceRefused(ctx, s, tb, leg, action)
  {
    if leg == 0 {
      NoSuchLeg(s.rows);
    } else {
      ActiveFacts(s.rows, leg);
    }
    hide Inv, Follow, History;
  }

  lemma EarlierLegRefuses(ctx: Ctx, s: Swap, tb: Tb, leg: nat, action: LegAction)
    requires Proper(ctx) && Inv(ctx, s, tb) && 1 <= leg < Last(s.rows).legSeq
    ensures AdvanceRefused(ctx, s, tb, leg, action)
  {
    assert leg < LEGS && SpecOk(ctx.plan, leg);
    hide Inv, AdvanceBody;
    AdvanceEarlierRefused(ctx, s, tb, leg, action);
  }

  /** A swap that is not in process, or whose last attempt is not in flight. */
  lemma IdleHasNoTransition(ctx: Ctx, s: Swap, tb: Tb, action: LegAction)
    requires Inv(ctx, s, tb) && !Working(ctx, s, tb)
    ensures s.rows != [] && 1 <= Last(s.rows).legSeq <= LEGS
    ensures s.status == Processing ==>
      Transition(ctx.IsFiat(ctx.Spec(Last(s.rows).legSeq).side), Last(s.rows).status, action) == None
  {
    hide LedgerInv;
  }

  lemma NotProcessingRefuses(ctx: Ctx, s: Swap, tb: Tb, leg: nat, action: LegAction)
    requires s.status != Processing
    ensures AdvanceRefused(ctx, s, tb, leg, action)
  {
  }

  lemma IdleLegRefuses(ctx: Ctx, s: Swap, tb: Tb, action: LegAction)
    requires Inv(ctx, s, tb) && !Working(ctx, s, tb)
    ensures AdvanceRefused(ctx, s, tb, Last(s.rows).legSeq, action)
  {
    hide Inv, Working, AdvanceBody, Transition;
    IdleHasNoTransition(ctx, s, tb, action);
    if s.status == Processing {
      AdvanceCurrent(ctx, s, tb, action);
    } else {
      NotProcessingRefuses(ctx, s, tb, Last(s.rows).legSeq, action);
    }
  }

  /** A swap that is not working on its last row answers every action but a resume with a refusal. */
  lemma IdleRefusesAdvance(ctx: Ctx, s: Swap, tb: Tb, leg: nat, action: LegAction)
    requires Proper(ctx) && Inv(ctx, s, tb) && (!Working(ctx, s, tb) || leg != Last(s.rows).legSeq)
    ensures !AdvanceBody(ctx, s, tb, leg, action).ok && AdvanceBody(ctx, s, tb, leg, action).tb == tb
  {
    assert s.rows != [];
    hide Inv, AdvanceBody;
    if leg == 0 || leg > Last(s.rows).legSeq {
      AbsentLegRefuses(ctx, s, tb, leg, action);
    } else if leg < Last(s.rows).legSeq {
      EarlierLegRefuses(ctx, s, tb, leg, action);
    } else {
      IdleLegRefuses(ctx, s, tb, action);
    }
  }

  lemma ResumeRefused(ctx: Ctx, s: Swap, tb: Tb, leg: nat)
    requires Inv(ctx, s, tb) && (Last(s.rows).status != NeedsReview || leg != Last(s.rows).legSeq)
    ensures !ResumeBody(ctx, s, tb, leg).ok && ResumeBody(ctx, s, tb, leg).tb == tb
  {
    if leg == 0 {
      NoSuchLeg(s.rows);
    } else {
      ActiveFacts(s.rows, leg);
    }
  }

  /** The call would post a leg whose successor cannot start. */
  predicate Blocked(ctx: Ctx, s: Swap, tb: Tb, op: Op) {
    && s.rows != [] && Last(s.rows).status == Confirmed && Last(s.rows).legSeq < LEGS
    && op == Advance(Last(s.rows).legSeq, Settle) && !CanStart(ctx, tb, Last(s.rows).legSeq + 1)
  }

  /** Every operation that is not blocked keeps the invariant and the history, and when it is
      refused it leaves both the database and the ledger as they were. */
  lemma StepKeepsInv(ctx: Ctx, s: Swap, tb: Tb, op: Op)
    requires Proper(ctx) && Inv(ctx, s, tb) && !Blocked(ctx, s, tb, op)
    ensures
      var o := Step(ctx, s, tb, op);
      && Inv(ctx, o.swap, o.tb) && o.tb.accounts == tb.accounts
      && Grows(s.rows, o.swap.rows) && (!o.ok ==> o.swap == s && o.tb == tb)
  {
    assert s.rows != [];
    hide Inv, Step, Blocked;
    match op
    case Advance(leg, action) =>
      if Working(ctx, s, tb) && leg == Last(s.rows).legSeq {
        AdvanceKeepsInv(ctx, s, tb, action);
      } else {
        RefusedAdvance(ctx, s, tb, leg, action);
      }
    case Resume(leg) => ResumeCallKeepsInv(ctx, s, tb, leg);
  }

  lemma GrowsNot(rows: seq<LegRow>)
    requires rows != []
    ensures Grows(rows, rows)
  {
  }

  lemma RefusedAdvance(ctx: Ctx, s: Swap, tb: Tb, leg: nat, action: LegAction)
    requires Proper(ctx) && Inv(ctx, s, tb) && (!Working(ctx, s, tb) || leg != Last(s.rows).legSeq)
    ensures Step(ctx, s, tb, Advance(leg, action)) == Outcome(false, s, tb) && Grows(s.rows, s.rows)
  {
    IdleRefusesAdvance(ctx, s, tb, leg, action);
    GrowsNot(s.rows);
    hide AdvanceBody;
  }

  lemma ResumeCallKeepsInv(ctx: Ctx, s: Swap, tb: Tb, leg: nat)
    requires Inv(ctx, s, tb)
    ensures
      var o := Step(ctx, s, tb, Resume(leg));
      && Inv(ctx, o.swap, o.tb) && o.tb.accounts == tb.accounts
      && Grows(s.rows, o.swap.rows) && (!o.ok ==> o.swap == s && o.tb == tb)
  {
    hide LedgerInv, ResumeBody;
    GrowsNot(s.rows);
    if Last(s.rows).status == NeedsReview && leg == Last(s.rows).legSeq {
      ResumeKeepsInv(ctx, s, tb);
    } else {
      ResumeRefused(ctx, s, tb, leg);
    }
  }

  lemma ClearIsSettle(isFiat: bool, status: LegStatus, action: LegAction)
    ensures Transition(isFiat, status, action) == Some(Clear) ==> status == Confirmed && action == Settle
  {
  }

  lemma AdvanceKeepsInv(ctx: Ctx, s: Swap, tb: Tb, action: LegAction)
    requires Working(ctx, s, tb) && !Blocked(ctx, s, tb, Advance(Last(s.rows).legSeq, action))
    ensures
      var o := Step(ctx, s, tb, Advance(Last(s.rows).legSeq, action));
      && Inv(ctx, o.swap, o.tb) && o.tb.accounts == tb.accounts
      && Grows(s.rows, o.swap.rows) && (!o.ok ==> o.swap == s && o.tb == tb)
  {
    var isFiat := ctx.IsFiat(ctx.Spec(Last(s.rows).legSeq).side);
    ClearIsSettle(isFiat, Last(s.rows).status, action);
    GrowsByHop(s.rows, Last(s.rows).status);
    assert Restatus(s.rows, Last(s.rows).status) == s.rows;
    AdvanceCurrent(ctx, s, tb, action);
    var next := Transition(isFiat, Last(s.rows).status, action);
    hide AdvanceBody, React, Transition, CanStart, Restatus, Grows;
    if next.Some? {
      ReactKeepsInv(ctx, s, tb, action, next.value);
    }
  }

  lemma {:induction false} RunKeepsInv(ctx: Ctx, s: Swap, tb: Tb, ops: seq<Op>)
    requires Inv(ctx, s, tb) && Configured(ctx, tb)
    ensures var o := Run(ctx, s, tb, ops);
      Inv(ctx, o.swap, o.tb) && o.tb.accounts == tb.accounts && Grows(s.rows, o.swap.rows)
    decreases |ops|
  {
    if ops != [] {
      var o := Step(ctx, s, tb, ops[0]);
      StepKeepsInv(ctx, s, tb, ops[0]);
      SameConfigured(ctx, tb, o.tb);
      RunKeepsInv(ctx, o.swap, o.tb, ops[1..]);
      var z := Run(ctx, o.swap, o.tb, ops[1..]);
      GrowsTransitive(s.rows, o.swap.rows, z.swap.rows);
    }
  }

  lemma ResumeStep(ctx: Ctx, s: Swap, tb: Tb)
    requires s.rows != [] && ResumeBody(ctx, s, tb, Last(s.rows).legSeq).ok
    ensures Step(ctx, s, tb, Resume(Last(s.rows).legSeq)) == ResumeBody(ctx, s, tb, Last(s.rows).legSeq)
  {
  }

  lemma RunAfter(ctx: Ctx, s: Swap, tb: Tb, op: Op, ops: seq<Op>)
    ensures Run(ctx, s, tb, [op] + ops) == Run(ctx, Step(ctx, s, tb, op).swap, Step(ctx, s, tb, op).tb, ops)
  {
    assert ([op] + ops)[1..] == ops;
  }

  lemma {:induction false} RunAppend(ctx: Ctx, s: Swap, tb: Tb, ops: seq<Op>, op: Op)
    ensures
      var o := Run(ctx, s, tb, ops);
      var z := Run(ctx, s, tb, ops + [op]);
      z.swap == Step(ctx, o.swap, o.tb, op).swap && z.tb == Step(ctx, o.swap, o.tb, op).tb
    decreases |ops|
  {
    if ops == [] {
      assert ([] + [op])[1..] == [];
    } else {
      assert (ops + [op])[1..] == ops[1..] + [op];
      RunAppend(ctx, Step(ctx, s, tb, ops[0]).swap, Step(ctx, s, tb, ops[0]).tb, ops[1..], op);
    }
  }

  lemma SameConfigured(ctx: Ctx, tb: Tb, tb': Tb)
    requires tb'.accounts == tb.accounts
    ensures Configured(ctx, tb') <==> Configured(ctx, tb)
  {
    forall leg: nat ensures CanStart(ctx, tb', leg) <==> CanStart(ctx, tb, leg) {
      SameStart(ctx, tb, tb', leg);
    }
  }

  /** A swap that succeeded has started all its legs. */
  lemma SuccessStartedAll(ctx: Ctx, s: Swap, tb: Tb)
    requires Proper(ctx) && Inv(ctx, s, tb) && s.status == Success
    ensures Configured(ctx, tb)
  {
    forall leg | 1 <= leg <= LEGS ensures CanStart(ctx, tb, leg) {
      ActiveFacts(s.rows, leg);
      assert s.rows[Active(s.rows, leg)].legSeq == leg;
    }
  }

  lemma GrowsTransitive(a: seq<LegRow>, b: seq<LegRow>, c: seq<LegRow>)
    requires Grows(a, b) && Grows(b, c)
    ensures Grows(a, c)
  {
    var n := |a| - 1;
    assert c[..n] == c[..|b| - 1][..n] && b[..|b| - 1][..n] == b[..n];
    if |a| < |b| {
      assert c[n] == c[..|b| - 1][n] && b[n] == b[..|b| - 1][n];
    }
  }

  // ── Creation ──

  /** What a creation that fails halfway leaves in the ledger. */
  function LeftByStart(ctx: Ctx, tb: Tb, leg: nat): seq<Transfer>
    requires 1 <= leg <= LEGS
  {
    var spec := ctx.Spec(leg);
    if ctx.WalletsFound(spec) then Transfers(ctx, spec, Bookable(ctx, tb, spec, spec.entries), 1, Pending) else []
  }

  lemma PlanDistinct(ctx: Ctx, leg: nat)
    requires PlanOk(ctx.plan) && 1 <= leg <= LEGS
    ensures DistinctEvents(ctx.Spec(leg).entries)
  {
    assert SpecOk(ctx.plan, leg);
  }

  /** The first attempt of a leg under free ids starts exactly when the leg can start, and either
      way the ledger keeps what was booked. */
  lemma FirstStart(ctx: Ctx, s: Swap, tb: Tb, leg: nat)
    requires Plain(ctx) && 1 <= leg <= LEGS && Fresh(ctx, tb.log, ctx.Spec(leg).entries, 1)
    ensures
      var o := CreateAndStart(ctx, s, tb, leg, 1, []);
      && (o.ok <==> CanStart(ctx, tb, leg))
      && (!o.ok ==> o.swap == s)
      && o.tb == tb.(log := tb.log + LeftByStart(ctx, tb, leg))
  {
    hide InitiatePending, Fresh, PlanOk, Recompute, Transfers, EntryReady, DistinctEvents;
    PlanDistinct(ctx, leg);
    assert tb.log + [] == tb.log;
    InitiateBooks(ctx, ctx.Spec(leg), ctx.Spec(leg).entries, 1, tb);
  }

  /** A swap is created exactly when leg 1 can start; its rows, summary, audits and ledger then
      agree. Otherwise the swap's row is rolled back, but transfers already booked stay. */
  lemma ExecuteEstablishesInv(ctx: Ctx, tb: Tb)
    requires Plain(ctx) && tb.log == []
    ensures
      var o := ExecuteSwap(ctx, tb);
      && (o.ok <==> CanStart(ctx, tb, 1))
      && o.tb == tb.(log := LeftByStart(ctx, tb, 1))
      && (o.ok ==> Inv(ctx, o.swap, o.tb) && o.swap.rows == [StartRow(ctx, 1, 1)])
  {
    var s := Swap(Processing, None, false, [], [SwapCreated]);
    hide CreateAndStart, Inv, CanStart;
    FirstStart(ctx, s, tb, 1);
    assert tb.log + LeftByStart(ctx, tb, 1) == LeftByStart(ctx, tb, 1);
    if CanStart(ctx, tb, 1) {
      FirstInv(ctx, s, tb);
    }
  }

  /** The swap's first row, its summary, its audits and what was booked agree. */
  lemma FirstInv(ctx: Ctx, s: Swap, tb: Tb)
    requires Plain(ctx) && tb.log == [] && CanStart(ctx, tb, 1)
    requires s == Swap(Processing, None, false, [], [SwapCreated])
    ensures
      var o := CreateAndStart(ctx, s, tb, 1, 1, []);
      Inv(ctx, o.swap, o.tb) && o.swap.rows == [StartRow(ctx, 1, 1)]
  {
    var row := StartRow(ctx, 1, 1);
    hide CreateAndStart, InitiatePending, CanStart, Recompute;
    BookLedger(ctx, tb, [], row);
    StartsInFlight(ctx, s, tb, 1, 1, []);
    assert [] + [row] == [row];
    RecomputeIsExact(s.(rows := [row], audits := s.audits + []));
  }

  /** A refused creation leaves a transfer behind exactly when the wallets of leg 1 are found and
      its first transfer can be recorded. */
  lemma RefusedCreationLeavesNothingIff(ctx: Ctx, tb: Tb)
    requires Proper(ctx) && tb.log == [] && !CanStart(ctx, tb, 1)
    ensures !ExecuteSwap(ctx, tb).ok
    ensures ExecuteSwap(ctx, tb).tb == tb
       <==> !ctx.WalletsFound(ctx.Spec(1)) || Bookable(ctx, tb, ctx.Spec(1), ctx.Spec(1).entries) == []
  {
    ExecuteEstablishesInv(ctx, tb);
    assert SpecOk(ctx.plan, 1) && ctx.LegAmount(1) > 0;
  }
}
