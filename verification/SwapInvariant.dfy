/** The invariant of a swap: the shape of its row history, and the ledger, projections and audit
    trail that this shape determines. */
module SwapInvariant {
  import opened Prelude
  import opened Ledger
  import opened SwapModel
  import opened SwapLedger

  // ── Shape of the row history ──

  predicate InFlight(isFiat: bool, s: LegStatus) {
    s == Confirming || s == Confirmed || (!isFiat && (s == Signing || s == Broadcasted))
  }

  function Last(rows: seq<LegRow>): LegRow requires rows != [] { rows[|rows| - 1] }
  function Init(rows: seq<LegRow>): seq<LegRow> requires rows != [] { rows[..|rows| - 1] }

  /** `b` may follow these rows: another attempt after a failure (or, from attempt 3 on, after a
      manual resume), or the first attempt of the next leg after a clear one. */
  predicate Linked(rows: seq<LegRow>, b: LegRow)
    requires rows != []
  {
    var a := Last(rows);
    || (b.legSeq == a.legSeq && b.attempt == a.attempt + 1
        && if a.attempt < MAX_LEG_ATTEMPTS then TerminalFail(a.status) else a.status == NeedsReview)
    || (a.status == Clear && b.legSeq == a.legSeq + 1 && b.attempt == 1)
  }

  /** The history grows from attempt 1 of leg 1, one linked row at a time. */
  predicate History(rows: seq<LegRow>): (h: bool)
    ensures h ==> LegsInRange(rows)
  {
    && rows != [] && 1 <= Last(rows).legSeq <= LEGS
    && if |rows| == 1 then Last(rows).legSeq == 1 && Last(rows).attempt == 1
       else History(Init(rows)) && Linked(Init(rows), Last(rows))
  }

  predicate LastOk(ctx: Ctx, r: LegRow)
    requires 1 <= r.legSeq <= LEGS
  {
    var fiat := ctx.IsFiat(ctx.Spec(r.legSeq).side);
    || InFlight(fiat, r.status)
    || (r.status == NeedsReview && r.attempt >= MAX_LEG_ATTEMPTS)
    || (r.status == Cancelled && !fiat)
    || (r.status == Clear && r.legSeq == LEGS)
  }

  // ── Audit trail determined by the history ──

  function LinkAudits(rows: seq<LegRow>, b: LegRow): seq<Audit>
    requires rows != []
  {
    var a := Last(rows);
    if b.legSeq != a.legSeq then [LegPosted(a.legSeq, a.attempt)]
    else if a.attempt < MAX_LEG_ATTEMPTS then [LegRetried(a.legSeq, a.attempt)]
    else [LegStuck(a.legSeq, a.attempt), LegResumed(b.legSeq, b.attempt)]
  }

  function Trail(rows: seq<LegRow>): seq<Audit> {
    if |rows| <= 1 then [SwapCreated]
    else Trail(Init(rows)) + LinkAudits(Init(rows), Last(rows))
  }

  function ClosingAudits(r: LegRow): seq<Audit> {
    if r.status == NeedsReview then [LegStuck(r.legSeq, r.attempt)]
    else if r.status == Clear then [LegPosted(r.legSeq, r.attempt), SwapSucceeded]
    else []
  }

  // ── The invariant ──

  /** The swap its rows determine: status and summary fields from the last row, audits from all. */
  function Summary(rows: seq<LegRow>): Swap
    requires rows != []
  {
    var last := Last(rows);
    Swap(if last.status == Clear then Success else Processing,
         if last.status == Clear then None else Some(StageOf(last.legSeq)),
         last.status == NeedsReview, rows, Trail(rows) + ClosingAudits(last))
  }

  /** The rows form a history, and the swap is what they determine. */
  predicate RowsInv(ctx: Ctx, s: Swap) {
    History(s.rows) && LastOk(ctx, Last(s.rows)) && s == Summary(s.rows)
  }

  /** The ledger holds, of this swap, exactly what the rows account for. */
  predicate LedgerInv(ctx: Ctx, rows: seq<LegRow>, tb: Tb) {
    RowsReady(ctx, tb, rows) && tb == Tb(tb.accounts, Expected(ctx, tb, rows))
  }

  /** Exactly one side of the swap is fiat, as the workflow's choice of start action assumes. */
  predicate OneFiat(ctx: Ctx) { ctx.fromIsFiat != ctx.toIsFiat }

  predicate Inv(ctx: Ctx, s: Swap, tb: Tb) {
    RowsInv(ctx, s) && LedgerInv(ctx, s.rows, tb)
  }

  // ── Facts about histories ──

  /** Earlier rows belong to earlier legs or to earlier attempts of the last leg. */
  lemma {:induction false} HistoryOrder(rows: seq<LegRow>, i: nat)
    requires History(rows) && i < |rows| - 1
    ensures rows[i].legSeq < Last(rows).legSeq
         || (rows[i].legSeq == Last(rows).legSeq && rows[i].attempt < Last(rows).attempt)
  {
    assert Linked(Init(rows), Last(rows)) && Last(Init(rows)) == rows[|rows| - 2];
    if i < |rows| - 2 {
      assert rows[i] == Init(rows)[i];
      HistoryOrder(Init(rows), i);
    }
  }

  lemma HistoryExtend(rows: seq<LegRow>, r: LegRow)
    requires History(rows) && Linked(rows, r) && r.legSeq <= LEGS
    ensures History(rows + [r])
  {
    assert Init(rows + [r]) == rows;
  }

  lemma HistoryRestatus(rows: seq<LegRow>, s: LegStatus)
    requires History(rows)
    ensures History(rows[|rows| - 1 := Last(rows).(status := s)])
    ensures Init(rows[|rows| - 1 := Last(rows).(status := s)]) == Init(rows)
  {
    var rs := rows[|rows| - 1 := Last(rows).(status := s)];
    assert Init(rs) == Init(rows);
  }

  /** The active row of the current leg is the last row; earlier legs are clear, later ones absent. */
  lemma {:induction false} ActiveFacts(rows: seq<LegRow>, leg: nat)
    requires History(rows) && leg >= 1
    ensures leg == Last(rows).legSeq ==> Active(rows, leg) == |rows| - 1
    ensures leg > Last(rows).legSeq ==> Active(rows, leg) == -1
    ensures leg < Last(rows).legSeq ==> ActiveIs(rows, leg, Clear) && Active(rows, leg) < |rows| - 1
  {
    if |rows| == 1 {
      assert Active(rows[..0], leg) == -1;
    } else {
      ActiveFacts(Init(rows), leg);
    }
  }

  lemma {:induction false} LegsUpToLast(rows: seq<LegRow>, i: nat)
    requires History(rows) && i < |rows|
    ensures rows[i].legSeq <= Last(rows).legSeq
  {
    if i < |rows| - 1 {
      HistoryOrder(rows, i);
    }
  }

  lemma {:induction false} LowestOpenFacts(rows: seq<LegRow>, n: nat)
    requires History(rows) && n <= |rows|
    ensures n < |rows| && Last(rows).status == Clear ==> LowestOpen(rows, n) == None
    ensures n < |rows| ==> LowestOpen(rows, n) in {None, Some(Last(rows).legSeq)}
    ensures n == |rows| ==> LowestOpen(rows, n) == if Last(rows).status == Clear then None else Some(Last(rows).legSeq)
  {
    if n > 0 {
      LowestOpenFacts(rows, n - 1);
      LegsUpToLast(rows, n - 1);
      ActiveFacts(rows, rows[n - 1].legSeq);
    }
  }

  lemma {:induction false} NeedsReviewFacts(rows: seq<LegRow>, n: nat)
    requires History(rows) && n <= |rows|
    ensures AnyNeedsReview(rows, n) ==> Last(rows).status == NeedsReview
    ensures n == |rows| ==> (AnyNeedsReview(rows, n) <==> Last(rows).status == NeedsReview)
  {
    if n > 0 {
      NeedsReviewFacts(rows, n - 1);
      LegsUpToLast(rows, n - 1);
      ActiveFacts(rows, rows[n - 1].legSeq);
    }
  }

  /** Recomputing the projections yields what the rows determine. */
  lemma RecomputeIsExact(s: Swap)
    requires History(s.rows) && s.status == Summary(s.rows).status && s.audits == Summary(s.rows).audits
    ensures Recompute(s) == Summary(s.rows)
  {
    LowestOpenFacts(s.rows, |s.rows|);
    NeedsReviewFacts(s.rows, |s.rows|);
  }

  lemma {:induction false} NoPriorOpen(rows: seq<LegRow>, n: nat, leg: nat)
    requires History(rows) && n <= |rows| && leg <= Last(rows).legSeq
    ensures !PriorOpen(rows, n, leg)
  {
    if n > 0 {
      NoPriorOpen(rows, n - 1, leg);
      ActiveFacts(rows, rows[n - 1].legSeq);
    }
  }

  // ── Ids of past rows never collide with a new attempt ──

  lemma {:induction false} BatchIds(ctx: Ctx, spec: LegSpec, entries: seq<Entry>, attempt: nat, phase: Phase,
      id: TransferId)
    requires ctx.Amount(spec.amount) > 0 ==> forall e :: e in entries ==>
      ctx.Resolves(e.debitCode, spec.side) && ctx.Resolves(e.creditCode, spec.side)
    requires forall e :: e in entries ==> ctx.Id(e.event, attempt) != id
    ensures !Has(Transfers(ctx, spec, entries, attempt, phase), id)
  {
    if entries != [] && ctx.Amount(spec.amount) > 0 {
      assert entries[0] in entries;
      BatchIds(ctx, spec, entries[1..], attempt, phase, id);
      IndexOfConcat([TransferFor(ctx, spec, entries[0], attempt, phase)],
                    Transfers(ctx, spec, entries[1..], attempt, phase), id);
      assert IndexOf([TransferFor(ctx, spec, entries[0], attempt, phase)], id) == 1;
    }
  }

  lemma {:induction false} ExpectedIds(ctx: Ctx, tb: Tb, rows: seq<LegRow>, leg: nat, attempt: nat, e: Entry)
    requires RowsReady(ctx, tb, rows) && 1 <= leg <= LEGS && e in ctx.Spec(leg).entries
    requires forall i :: 0 <= i < |rows| ==> rows[i].legSeq != leg || rows[i].attempt != attempt
    ensures !Has(Expected(ctx, tb, rows), ctx.Id(e.event, attempt))
  {
    if rows != [] {
      ExpectedIds(ctx, tb, Init(rows), leg, attempt, e);
      var r := Last(rows);
      forall x | x in ctx.Spec(r.legSeq).entries ensures ctx.Id(x.event, r.attempt) != ctx.Id(e.event, attempt) {
        if x.event == e.event {
          assert SpecOk(ctx.plan, leg) && SpecOk(ctx.plan, r.legSeq);
        }
      }
      BatchIds(ctx, ctx.Spec(r.legSeq), ctx.Spec(r.legSeq).entries, r.attempt, PhaseOf(r.status),
          ctx.Id(e.event, attempt));
      IndexOfConcat(Expected(ctx, tb, Init(rows)), RowTransfers(ctx, tb, r), ctx.Id(e.event, attempt));
    }
  }

  lemma NewAttemptIsFresh(ctx: Ctx, tb: Tb, rows: seq<LegRow>, leg: nat, attempt: nat)
    requires RowsReady(ctx, tb, rows) && 1 <= leg <= LEGS
    requires forall i :: 0 <= i < |rows| ==> rows[i].legSeq != leg || rows[i].attempt != attempt
    ensures Fresh(ctx, Expected(ctx, tb, rows), ctx.Spec(leg).entries, attempt)
  {
    forall e | e in ctx.Spec(leg).entries ensures !Has(Expected(ctx, tb, rows), ctx.Id(e.event, attempt)) {
      ExpectedIds(ctx, tb, rows, leg, attempt, e);
    }
  }

  lemma LegEntriesReady(ctx: Ctx, tb: Tb, leg: nat)
    requires PlanOk(ctx.plan) && CanStart(ctx, tb, leg)
    ensures EntriesReady(ctx, tb, ctx.Spec(leg), ctx.Spec(leg).entries) && DistinctEvents(ctx.Spec(leg).entries)
  {
    assert SpecOk(ctx.plan, leg);
  }
}
