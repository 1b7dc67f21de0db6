/** Swaps of a customer whose payables carry the no-overdraft flag, on the shared ledger. Cover is
    asked for at creation, when the fee leg starts, at a retry and at a resume; a retry and, as long
    as the fee does not exceed the proceeds, the fee leg always have it. A refusal for want of cover
    leaves no trace, so that such a swap otherwise behaves as one over accounts without the flag. */
module SwapCover {
  import opened Prelude
  import opened Ledger
  import opened LedgerViews
  import opened Cover
  import opened SwapModel
  import opened SwapLedger
  import opened SwapInvariant
  import opened SwapSteps
  import opened SwapRuns
  import opened SwapDivergence
  import opened SwapLocality

  /** The plan is one of the two, and of the accounts it uses only customer payables carry the flag. */
  predicate FlagsFit(ctx: Ctx) {
    && ctx.plan == SwapLegPlan(ctx.fromIsFiat)
    && forall key :: key in ctx.accounts && ctx.accounts[key] in ctx.capped ==> key.0 == CLIENT_PAYABLE
  }

  /** The attempt's first transfer would be refused for want of cover. */
  predicate Short(ctx: Ctx, tb: Tb, leg: nat, attempt: nat)
    requires 1 <= leg <= LEGS
  {
    var spec := ctx.Spec(leg);
    && spec.entries != [] && ctx.LegAmount(leg) > 0
    && ctx.Resolves(spec.entries[0].debitCode, spec.side) && ctx.Resolves(spec.entries[0].creditCode, spec.side)
    && !Covers(tb, ctx.capped, TransferFor(ctx, spec, spec.entries[0], attempt, Pending))
  }

  // ── Booking ──

  /** Legs 1 and 4 debit the payable, with their first entry; leg 3 credits it with its second. */
  lemma PlanDebits(fromIsFiat: bool, leg: nat)
    requires 1 <= leg <= LEGS
    ensures
      var es := SwapLegPlan(fromIsFiat)[leg - 1].entries;
      && es != [] && (es[0].debitCode == CLIENT_PAYABLE <==> leg in {1, LEGS})
      && forall i :: 1 <= i < |es| ==> es[i].debitCode != CLIENT_PAYABLE
  {
  }

  lemma PlanCredits(fromIsFiat: bool, leg: nat)
    requires leg in {1, 3, LEGS}
    ensures
      var es := SwapLegPlan(fromIsFiat)[leg - 1].entries;
      && |es| == 2 && es[0].creditCode != CLIENT_PAYABLE && (es[1].creditCode == CLIENT_PAYABLE <==> leg == 3)
  {
  }

  lemma {:induction false} UnflaggedBooks(ctx: Ctx, spec: LegSpec, entries: seq<Entry>, attempt: nat, tb: Tb)
    requires forall e :: e in entries && ctx.Resolves(e.debitCode, spec.side) ==>
      ctx.accounts[(e.debitCode, spec.side)] !in ctx.capped
    ensures InitiatePending(ctx, spec, entries, attempt, tb)
        == InitiatePending(ctx.Unflagged(), spec, entries, attempt, tb)
    decreases |entries|
  {
    if entries != [] && ctx.Amount(spec.amount) > 0 {
      var e := entries[0];
      assert e in entries && forall x :: x in entries[1..] ==> x in entries;
      if ctx.Resolves(e.debitCode, spec.side) && ctx.Resolves(e.creditCode, spec.side) {
        var t := TransferFor(ctx, spec, e, attempt, Pending);
        assert CreateCapped(tb, ctx.capped, t) == Create(tb, t) == CreateCapped(tb, {}, t);
        if Create(tb, t).Ok? {
          UnflaggedBooks(ctx, spec, entries[1..], attempt, Create(tb, t).value);
        }
      }
    }
  }

  lemma {:induction false} UnflaggedResolves(
      ctx: Ctx, spec: LegSpec, entries: seq<Entry>, attempt: nat, tb: Tb, outcome: Phase)
    ensures ResolveLeg(ctx, spec, entries, attempt, tb, outcome)
         == ResolveLeg(ctx.Unflagged(), spec, entries, attempt, tb, outcome)
    decreases |entries|
  {
    if entries != [] && ctx.Amount(spec.amount) > 0 {
      var r := Resolve(tb, ctx.Id(entries[0].event, attempt), ctx.Amount(spec.amount), outcome);
      if r.Ok? {
        UnflaggedResolves(ctx, spec, entries[1..], attempt, r.value, outcome);
      }
    }
  }

  lemma OnlyFirstIsFlagged(ctx: Ctx, leg: nat, e: Entry)
    requires FlagsFit(ctx) && 1 <= leg <= LEGS && e in ctx.Spec(leg).entries[1..]
    requires ctx.Resolves(e.debitCode, ctx.Spec(leg).side)
    ensures ctx.accounts[(e.debitCode, ctx.Spec(leg).side)] !in ctx.capped
  {
    PlanDebits(ctx.fromIsFiat, leg);
    assert (e.debitCode, ctx.Spec(leg).side) in ctx.accounts;
  }

  lemma RestIsUnflagged(ctx: Ctx, leg: nat)
    requires FlagsFit(ctx) && 1 <= leg <= LEGS
    ensures ctx.Spec(leg).entries != []
    ensures forall e :: e in ctx.Spec(leg).entries[1..] && ctx.Resolves(e.debitCode, ctx.Spec(leg).side) ==>
      ctx.accounts[(e.debitCode, ctx.Spec(leg).side)] !in ctx.capped
  {
    PlanDebits(ctx.fromIsFiat, leg);
    hide FlagsFit;
    forall e | e in ctx.Spec(leg).entries[1..] && ctx.Resolves(e.debitCode, ctx.Spec(leg).side)
      ensures ctx.accounts[(e.debitCode, ctx.Spec(leg).side)] !in ctx.capped
    {
      OnlyFirstIsFlagged(ctx, leg, e);
    }
  }

  /** An attempt without cover is refused before anything is booked; otherwise the flag makes no
      difference. */
  lemma BooksUnlessShort(ctx: Ctx, leg: nat, attempt: nat, tb: Tb)
    requires FlagsFit(ctx) && 1 <= leg <= LEGS
    ensures
      var spec := ctx.Spec(leg);
      InitiatePending(ctx, spec, spec.entries, attempt, tb)
      == if Short(ctx, tb, leg, attempt) then TbOut(false, tb)
         else InitiatePending(ctx.Unflagged(), spec, spec.entries, attempt, tb)
  {
    hide FlagsFit, SwapLegPlan, Free;
    var spec := ctx.Spec(leg);
    RestIsUnflagged(ctx, leg);
    var e := spec.entries[0];
    if ctx.LegAmount(leg) > 0 && ctx.Resolves(e.debitCode, spec.side) && ctx.Resolves(e.creditCode, spec.side) {
      var t := TransferFor(ctx, spec, e, attempt, Pending);
      assert CreateCapped(tb, {}, t) == Create(tb, t);
      if Covers(tb, ctx.capped, t) && Create(tb, t).Ok? {
        UnflaggedBooks(ctx, spec, spec.entries[1..], attempt, Create(tb, t).value);
      }
    }
  }

  lemma StartsUnlessShort(ctx: Ctx, s: Swap, tb: Tb, leg: nat, attempt: nat, audits: seq<Audit>)
    requires FlagsFit(ctx) && 1 <= leg <= LEGS
    ensures CreateAndStart(ctx, s, tb, leg, attempt, audits)
         == if ctx.WalletsFound(ctx.Spec(leg)) && Short(ctx, tb, leg, attempt) then Throw(s, tb)
            else CreateAndStart(ctx.Unflagged(), s, tb, leg, attempt, audits)
  {
    BooksUnlessShort(ctx, leg, attempt, tb);
    hide InitiatePending, Recompute, Short, FlagsFit;
  }

  // ── What settling an attempt does to the amount free on an account ──

  lemma {:induction false} ResolveLegShifts(
      ctx: Ctx, spec: LegSpec, entries: seq<Entry>, attempt: nat, tb: Tb, outcome: Phase, w: Transfer -> int)
    requires UniqueIds(tb.log)
    ensures Shifts(tb, ResolveLeg(ctx, spec, entries, attempt, tb, outcome).tb, ctx.Source(), w)
    decreases |entries|
  {
    if entries != [] && ctx.Amount(spec.amount) > 0 {
      var id, amount := ctx.Id(entries[0].event, attempt), ctx.Amount(spec.amount);
      if Resolve(tb, id, amount, outcome).Ok? {
        ResolveShifts(tb, id, amount, outcome, w);
        ResolveLocal(tb, id, amount, outcome);
        ResolveLegShifts(ctx, spec, entries[1..], attempt, Resolve(tb, id, amount, outcome).value, outcome, w);
      }
    }
  }

  /** Rows and the swap's share of the ledger agree, and the last attempt is pending. */
  ghost predicate InStep(ctx: Ctx, rows: seq<LegRow>, tb: Tb) {
    && ctx.capped == {} && UniqueIds(tb.log) && History(rows)
    && LedgerInv(ctx, rows, View(tb, ctx.Source())) && PhaseOf(Last(rows).status) == Pending
  }

  /** The transfers of the last row's attempt, in a phase. */
  function Batch(ctx: Ctx, tb: Tb, rows: seq<LegRow>, status: LegStatus): seq<Transfer>
    requires rows != [] && CanStart(ctx, tb, Last(rows).legSeq)
  {
    RowTransfers(ctx, tb, Last(rows).(status := status))
  }

  lemma ShareOfBatch(ctx: Ctx, rows: seq<LegRow>, v: Tb, status: LegStatus, w: Transfer -> int)
    requires rows != [] && LedgerInv(ctx, Restatus(rows, status), v)
    ensures CanStart(ctx, v, Last(rows).legSeq) && RowsReady(ctx, v, Init(rows))
    ensures Sum(v.log, w) == Sum(Expected(ctx, v, Init(rows)), w) + Sum(Batch(ctx, v, rows, status), w)
  {
    var after := Restatus(rows, status);
    assert Init(after) == Init(rows) && Last(after) == Last(rows).(status := status);
    assert CanStart(ctx, v, Last(after).legSeq);
    assert forall i :: 0 <= i < |Init(rows)| ==> Init(rows)[i].legSeq == after[i].legSeq;
    SumConcat(Expected(ctx, v, Init(rows)), RowTransfers(ctx, v, Last(after)), w);
  }

  /** Settling the last attempt succeeds on the shared ledger, and moves the free amount of any
      account by the difference its own transfers make. */
  lemma SettlingMovesFree(ctx: Ctx, rows: seq<LegRow>, tb: Tb, status: LegStatus, a: nat) returns (done: TbOut)
    requires InStep(ctx, rows, tb)
    ensures var r := Last(rows);
      done == ResolveLeg(ctx, ctx.Spec(r.legSeq), ctx.Spec(r.legSeq).entries, r.attempt, tb, PhaseOf(status))
    ensures done.ok && UniqueIds(done.tb.log) && done.tb.accounts == tb.accounts
    ensures LedgerInv(ctx, Restatus(rows, status), View(done.tb, ctx.Source()))
    ensures CanStart(ctx, tb, Last(rows).legSeq)
    ensures Free(done.tb, a)
         == Free(tb, a) + Sum(Batch(ctx, tb, rows, status), Adds(a)) - Sum(Batch(ctx, tb, rows, Last(rows).status),
             Adds(a))
  {
    var r, src := Last(rows), ctx.Source();
    var spec := ctx.Spec(r.legSeq);
    done := ResolveLeg(ctx, spec, spec.entries, r.attempt, tb, PhaseOf(status));
    ResolveLegLocal(ctx, spec, spec.entries, r.attempt, tb, PhaseOf(status));
    ResolveLegShifts(ctx, spec, spec.entries, r.attempt, tb, PhaseOf(status), Adds(a));
    ResolveLast(ctx, View(tb, src), rows, status);
    FreeIsSum(tb, a);
    FreeIsSum(done.tb, a);
    assert Restatus(rows, r.status) == rows;
    hide LedgerInv, ResolveLeg, Free, Adds, RowTransfers, Expected;
    ShareOfBatch(ctx, rows, View(tb, src), r.status, Adds(a));
    ShareOfBatch(ctx, rows, View(done.tb, src), status, Adds(a));
    SameBatches(ctx, rows, tb, View(tb, src), View(done.tb, src), status);
  }

  /** What a row accounts for does not depend on the log. */
  lemma SameBatches(ctx: Ctx, rows: seq<LegRow>, tb: Tb, v: Tb, v': Tb, status: LegStatus)
    requires rows != [] && tb.accounts == v.accounts == v'.accounts
    requires CanStart(ctx, v, Last(rows).legSeq) && RowsReady(ctx, v, Init(rows))
    ensures CanStart(ctx, v', Last(rows).legSeq) && CanStart(ctx, tb, Last(rows).legSeq)
    ensures RowsReady(ctx, v', Init(rows)) && Expected(ctx, v', Init(rows)) == Expected(ctx, v, Init(rows))
    ensures Batch(ctx, v', rows, status) == Batch(ctx, v, rows, status) == Batch(ctx, tb, rows, status)
    ensures Batch(ctx, v, rows, Last(rows).status) == Batch(ctx, tb, rows, Last(rows).status)
  {
    SameStart(ctx, v, v', Last(rows).legSeq);
    SameStart(ctx, v, tb, Last(rows).legSeq);
    SameExpected(ctx, v, v', Init(rows));
  }

  lemma EntryTouches(ctx: Ctx, e: Entry, side: Side)
    requires FlagsFit(ctx) && (CLIENT_PAYABLE, side) in ctx.accounts
        && ctx.accounts[(CLIENT_PAYABLE, side)] in ctx.capped
    requires ctx.Resolves(e.debitCode, side) && ctx.Resolves(e.creditCode, side)
    ensures ctx.accounts[(e.debitCode, side)] == ctx.accounts[(CLIENT_PAYABLE, side)] <==> e.debitCode == CLIENT_PAYABLE
    ensures ctx.accounts[(e.creditCode, side)] == ctx.accounts[(CLIENT_PAYABLE, side)]
        <==> e.creditCode == CLIENT_PAYABLE
  {
    assert (e.debitCode, side) in ctx.accounts && (e.creditCode, side) in ctx.accounts;
  }

  lemma BatchOfTwo(ctx: Ctx, spec: LegSpec, entries: seq<Entry>, attempt: nat, phase: Phase, w: Transfer -> int)
    requires |entries| == 2 && ctx.Amount(spec.amount) > 0
    requires forall e :: e in entries ==> ctx.Resolves(e.debitCode, spec.side) && ctx.Resolves(e.creditCode, spec.side)
    ensures entries[0] in entries && entries[1] in entries
    ensures Sum(Transfers(ctx, spec, entries, attempt, phase), w)
         == w(TransferFor(ctx, spec, entries[0], attempt, phase))
             + w(TransferFor(ctx, spec, entries[1], attempt, phase))
  {
    var t, u := TransferFor(ctx, spec, entries[0], attempt, phase), TransferFor(ctx, spec, entries[1], attempt, phase);
    assert entries[1..] == [entries[1]] && [entries[1]][1..] == [];
    assert Transfers(ctx, spec, [entries[1]], attempt, phase) == [u] + Transfers(ctx, spec, [], attempt, phase) == [u];
    assert Transfers(ctx, spec, entries, attempt, phase) == [t] + [u];
    SumConcat([t], [u], w);
    SumOne(t, w);
    SumOne(u, w);
  }

  /** What an attempt's transfers, in one phase, add to the flagged payable of its side. */
  lemma LegAdds(ctx: Ctx, tb: Tb, leg: nat, attempt: nat, phase: Phase)
    requires FlagsFit(ctx) && leg in {1, 3, LEGS} && CanStart(ctx.Unflagged(), tb, leg) && ctx.LegAmount(leg) > 0
    requires (CLIENT_PAYABLE, ctx.Spec(leg).side) in ctx.accounts
    requires ctx.accounts[(CLIENT_PAYABLE, ctx.Spec(leg).side)] in ctx.capped
    ensures
      var u, spec := ctx.Unflagged(), ctx.Spec(leg);
      Sum(Transfers(u, spec, spec.entries, attempt, phase), Adds(ctx.accounts[(CLIENT_PAYABLE, spec.side)]))
      == if leg == 3 then (if phase == Posted then ctx.LegAmount(leg) else 0)
         else if phase == Voided then 0 else 0 - ctx.LegAmount(leg)
  {
    var u, spec := ctx.Unflagged(), ctx.Spec(leg);
    PlanDebits(ctx.fromIsFiat, leg);
    PlanCredits(ctx.fromIsFiat, leg);
    forall e | e in spec.entries ensures u.Resolves(e.debitCode, spec.side) && u.Resolves(e.creditCode, spec.side) {
      assert EntryReady(u, tb, e, spec.side);
    }
    hide CanStart, FlagsFit, SwapLegPlan;
    BatchOfTwo(u, spec, spec.entries, attempt, phase, Adds(ctx.accounts[(CLIENT_PAYABLE, spec.side)]));
    EntryTouches(ctx, spec.entries[0], spec.side);
    EntryTouches(ctx, spec.entries[1], spec.side);
  }

  /** A leg that does not debit the payable needs no cover. */
  lemma NeverShort(ctx: Ctx, tb: Tb, leg: nat, attempt: nat)
    requires FlagsFit(ctx) && 1 <= leg <= LEGS && leg !in {1, LEGS}
    ensures !Short(ctx, tb, leg, attempt)
  {
    PlanDebits(ctx.fromIsFiat, leg);
    var key := (ctx.Spec(leg).entries[0].debitCode, ctx.Spec(leg).side);
    assert key in ctx.accounts ==> ctx.accounts[key] !in ctx.capped;
  }

  /** A leg that does is short of cover exactly when its amount exceeds what is free. */
  lemma ShortIff(ctx: Ctx, tb: Tb, leg: nat, attempt: nat)
    requires FlagsFit(ctx) && leg in {1, LEGS} && CanStart(ctx.Unflagged(), tb, leg) && ctx.LegAmount(leg) > 0
    requires !Has(tb.log, ctx.Id(ctx.Spec(leg).entries[0].event, attempt))
    ensures (CLIENT_PAYABLE, ctx.Spec(leg).side) in ctx.accounts
    ensures
      var a := ctx.accounts[(CLIENT_PAYABLE, ctx.Spec(leg).side)];
      Short(ctx, tb, leg, attempt) <==> a in ctx.capped && ctx.LegAmount(leg) > Free(tb, a)
  {
    PlanDebits(ctx.fromIsFiat, leg);
    var spec := ctx.Spec(leg);
    assert spec.entries[0] in spec.entries && EntryReady(ctx.Unflagged(), tb, spec.entries[0], spec.side);
  }

  // ── Who lacks cover ──

  /** What voiding an attempt gives back is enough for the next one. */
  lemma RetryHasCover(ctx: Ctx, rows: seq<LegRow>, tb: Tb, status: LegStatus) returns (voided: TbOut)
    requires FlagsFit(ctx) && Solvent(tb, ctx.capped) && InStep(ctx.Unflagged(), rows, tb) && TerminalFail(status)
    ensures var r := Last(rows);
      voided == ResolveLeg(ctx.Unflagged(), ctx.Spec(r.legSeq), ctx.Spec(r.legSeq).entries, r.attempt, tb, Voided)
    ensures !Short(ctx, voided.tb, Last(rows).legSeq, Last(rows).attempt + 1)
  {
    hide Free, SwapLegPlan, FlagsFit, ResolveLeg, Short, LedgerInv, CanStart, Adds, UniqueIds, View;
    var u, r := ctx.Unflagged(), Last(rows);
    var key := (CLIENT_PAYABLE, ctx.Spec(r.legSeq).side);
    var a := if key in ctx.accounts then ctx.accounts[key] else 0;
    voided := SettlingMovesFree(u, rows, tb, status, a);
    if r.legSeq !in {1, LEGS} {
      NeverShort(ctx, voided.tb, r.legSeq, r.attempt + 1);
    } else {
      if ctx.LegAmount(r.legSeq) > 0 && key in ctx.accounts && a in ctx.capped {
        LegAdds(ctx, tb, r.legSeq, r.attempt, Voided);
        LegAdds(ctx, tb, r.legSeq, r.attempt, Pending);
        assert Free(voided.tb, a) == Free(tb, a) + ctx.LegAmount(r.legSeq) && Free(tb, a) >= 0;
      }
      FreeIsCover(ctx, voided.tb, r.legSeq, r.attempt + 1);
    }
  }

  lemma PayableIsFirst(ctx: Ctx, leg: nat)
    requires FlagsFit(ctx) && leg in {1, LEGS}
    ensures ctx.Spec(leg).entries != [] && ctx.Spec(leg).entries[0].debitCode == CLIENT_PAYABLE
  {
    PlanDebits(ctx.fromIsFiat, leg);
  }

  /** What is free on the payable covers a debit that is no larger. */
  lemma FreeIsCover(ctx: Ctx, tb: Tb, leg: nat, attempt: nat)
    requires FlagsFit(ctx) && leg in {1, LEGS}
    requires
      var key := (CLIENT_PAYABLE, ctx.Spec(leg).side);
      key in ctx.accounts && ctx.accounts[key] in ctx.capped ==> ctx.LegAmount(leg) <= Free(tb, ctx.accounts[key])
    ensures !Short(ctx, tb, leg, attempt)
  {
    hide FlagsFit, Free;
    PayableIsFirst(ctx, leg);
  }

  /** The proceeds are on the payable before the fee is taken. */
  lemma ProceedsArrive(ctx: Ctx, rows: seq<LegRow>, tb: Tb, a: nat) returns (post: TbOut)
    requires FlagsFit(ctx) && InStep(ctx.Unflagged(), rows, tb) && Last(rows).legSeq == 3 && ctx.grossTo > 0
    requires (CLIENT_PAYABLE, To) in ctx.accounts && a == ctx.accounts[(CLIENT_PAYABLE, To)] && a in ctx.capped
    ensures var r := Last(rows);
      post == ResolveLeg(ctx.Unflagged(), ctx.Spec(3), ctx.Spec(3).entries, r.attempt, tb, Posted) && post.ok
    ensures Free(post.tb, a) == Free(tb, a) + ctx.grossTo
  {
    assert ctx.Spec(3).side == To && ctx.LegAmount(3) == ctx.grossTo;
    post := SettlingMovesFree(ctx.Unflagged(), rows, tb, Clear, a);
    LegAdds(ctx, tb, 3, Last(rows).attempt, Posted);
    LegAdds(ctx, tb, 3, Last(rows).attempt, Pending);
    hide Free, SwapLegPlan, FlagsFit, InStep, ResolveLeg;
  }

  /** The fee leg starts with cover exactly when the fee does not exceed what was free before the
      proceeds arrived and the proceeds together. */
  lemma FeeHasCoverIff(ctx: Ctx, rows: seq<LegRow>, tb: Tb) returns (post: TbOut)
    requires FlagsFit(ctx) && InStep(ctx.Unflagged(), rows, tb) && Last(rows).legSeq == 3
    requires ctx.grossTo > 0 && ctx.fee > 0 && CanStart(ctx.Unflagged(), tb, LEGS)
    ensures post == ResolveLeg(ctx.Unflagged(), ctx.Spec(3), ctx.Spec(3).entries, Last(rows).attempt, tb, Posted)
    ensures (CLIENT_PAYABLE, To) in ctx.accounts
    ensures
      var a := ctx.accounts[(CLIENT_PAYABLE, To)];
      Short(ctx, post.tb, LEGS, 1) <==> a in ctx.capped && ctx.fee > Free(tb, a) + ctx.grossTo
  {
    var u := ctx.Unflagged();
    assert ctx.Spec(LEGS).side == To && ctx.LegAmount(LEGS) == ctx.fee;
    post := SettlingMovesFree(u, rows, tb, Clear, 0);
    SameStart(u, tb, post.tb, LEGS);
    NextIdIsFree(u, rows, post.tb);
    ShortIff(ctx, post.tb, LEGS, 1);
    var a := ctx.accounts[(CLIENT_PAYABLE, To)];
    if a in ctx.capped {
      var same := ProceedsArrive(ctx, rows, tb, a);
    }
  }

  lemma NextIdIsFree(ctx: Ctx, rows: seq<LegRow>, tb: Tb)
    requires History(rows) && Last(rows).legSeq < LEGS && UniqueIds(tb.log)
    requires LedgerInv(ctx, Restatus(rows, Clear), View(tb, ctx.Source()))
    requires ctx.Spec(Last(rows).legSeq + 1).entries != []
    ensures !Has(tb.log, ctx.Id(ctx.Spec(Last(rows).legSeq + 1).entries[0].event, 1))
  {
    RowsRestatus(rows, Clear);
    NextIsFresh(ctx, View(tb, ctx.Source()), Restatus(rows, Clear));
    var e := ctx.Spec(Last(rows).legSeq + 1).entries[0];
    assert e in ctx.Spec(Last(rows).legSeq + 1).entries;
    MineFind(tb.log, ctx.Id(e.event, 1));
  }

  /** So the next leg never lacks cover while the fee does not exceed the proceeds. */
  lemma NextHasCover(ctx: Ctx, rows: seq<LegRow>, tb: Tb) returns (post: TbOut)
    requires FlagsFit(ctx) && Solvent(tb, ctx.capped) && InStep(ctx.Unflagged(), rows, tb)
    requires Last(rows).legSeq < LEGS && 0 < ctx.grossTo && ctx.fee <= ctx.grossTo
    ensures var r := Last(rows);
      post == ResolveLeg(ctx.Unflagged(), ctx.Spec(r.legSeq), ctx.Spec(r.legSeq).entries, r.attempt, tb, Posted)
    ensures !Short(ctx, post.tb, Last(rows).legSeq + 1, 1)
  {
    var u, r := ctx.Unflagged(), Last(rows);
    post := SettlingMovesFree(u, rows, tb, Clear, 0);
    if r.legSeq != 3 {
      NeverShort(ctx, post.tb, r.legSeq + 1, 1);
    } else {
      var key := (CLIENT_PAYABLE, To);
      assert ctx.Spec(LEGS).side == To && ctx.LegAmount(LEGS) == ctx.fee;
      PayableIsFirst(ctx, LEGS);
      if key in ctx.accounts && ctx.accounts[key] in ctx.capped {
        var same := ProceedsArrive(ctx, rows, tb, ctx.accounts[key]);
        assert Free(tb, ctx.accounts[key]) >= 0;
      }
    }
  }

  // ── Whole calls ──

  /** A leg's consequences are those without the flag, when whatever they start has cover. */
  lemma FollowsUnlessShort(ctx: Ctx, s: Swap, tb: Tb, i: nat, next: LegStatus)
    requires FlagsFit(ctx) && i < |s.rows| && 1 <= s.rows[i].legSeq <= LEGS
    requires
      var leg, attempt := s.rows[i].legSeq, s.rows[i].attempt;
      var post := ResolveLeg(ctx.Unflagged(), ctx.Spec(leg), ctx.Spec(leg).entries, attempt, tb, Posted);
      next == Clear && leg < LEGS && post.ok ==> !Short(ctx, post.tb, leg + 1, 1)
    requires
      var leg, attempt := s.rows[i].legSeq, s.rows[i].attempt;
      var voided := ResolveLeg(ctx.Unflagged(), ctx.Spec(leg), ctx.Spec(leg).entries, attempt, tb, Voided);
      TerminalFail(next) && attempt < MAX_LEG_ATTEMPTS && voided.ok ==> !Short(ctx, voided.tb, leg, attempt + 1)
    ensures Follow(ctx, s, tb, i, next) == Follow(ctx.Unflagged(), s, tb, i, next)
  {
    hide ResolveLeg, CreateAndStart, Short, FlagsFit, Recompute;
    var u, row := ctx.Unflagged(), s.rows[i];
    var leg, spec := row.legSeq, ctx.Spec(row.legSeq);
    var s1 := s.(rows := s.rows[i := row.(status := next)]);
    if next == Clear {
      UnflaggedResolves(ctx, spec, spec.entries, row.attempt, tb, Posted);
      var post := ResolveLeg(u, spec, spec.entries, row.attempt, tb, Posted);
      if leg < LEGS {
        StartsUnlessShort(ctx, s1.(audits := s1.audits + [LegPosted(leg, row.attempt)]), post.tb, leg + 1, 1, []);
      }
    } else if TerminalFail(next) {
      UnflaggedResolves(ctx, spec, spec.entries, row.attempt, tb, Voided);
      var voided := ResolveLeg(u, spec, spec.entries, row.attempt, tb, Voided);
      StartsUnlessShort(ctx, s1, voided.tb, leg, row.attempt + 1, [LegRetried(leg, row.attempt)]);
    }
  }

  /** The row can no longer be settled: the ledger, seen by the swap, has spent it. */
  lemma SpentOnShared(ctx: Ctx, tb: Tb, r: LegRow, outcome: Phase)
    requires UniqueIds(tb.log) && Spent(ctx, View(tb, ctx.Source()).log, r)
    ensures !ResolveLeg(ctx, ctx.Spec(r.legSeq), ctx.Spec(r.legSeq).entries, r.attempt, tb, outcome).ok
  {
    ResolveLegLocal(ctx, ctx.Spec(r.legSeq), ctx.Spec(r.legSeq).entries, r.attempt, tb, outcome);
    SpentCannotResolve(ctx, View(tb, ctx.Source()), r, outcome);
  }

  /** The swap of a customer whose payables may be flagged, on the shared ledger, in order or
      diverged; the fee does not exceed the proceeds. */
  ghost predicate Sharing(ctx: Ctx, s: Swap, tb: Tb) {
    && FlagsFit(ctx) && Solvent(tb, ctx.capped) && UniqueIds(tb.log) && ctx.fee <= ctx.grossTo
    && Sound(ctx.Unflagged(), s, View(tb, ctx.Source()))
  }

  lemma EarlierIsSpent(ctx: Ctx, s: Swap, v: Tb, i: nat)
    requires Proper(ctx) && Inv(ctx, s, v) && i < |s.rows| - 1 && s.rows[i].status == Clear
    requires 1 <= s.rows[i].legSeq < Last(s.rows).legSeq
    ensures Spent(ctx, v.log, s.rows[i])
  {
    assert v.log == Expected(ctx, v, s.rows) + [] && SpecOk(ctx.plan, s.rows[i].legSeq);
    ClearIsSpent(ctx, v, s.rows, i, []);
  }

  /** A row of a sound swap that an action can find: spent, or the last one in flight, or idle. */
  lemma ActiveKinds(ctx: Ctx, s: Swap, v: Tb, leg: nat)
    requires Sound(ctx, s, v) && 1 <= leg <= LEGS && Active(s.rows, leg) >= 0
    ensures
      var i := Active(s.rows, leg);
      && s.rows[i].legSeq == leg && s.rows[i].status != Created
      && (Spent(ctx, v.log, s.rows[i])
          || (i == |s.rows| - 1 && Inv(ctx, s, v) && PhaseOf(s.rows[i].status) == Pending)
          || s.rows[i].status == NeedsReview || s.status == Success)
  {
    hide Spent, LedgerInv, RowsReady, CanStart, Expected, LeftByStart;
    ActiveFacts(s.rows, leg);
    var i := Active(s.rows, leg);
    if Diverged(ctx, s, v) {
      DivergedIsSpent(ctx, s, v, i);
    } else if leg < Last(s.rows).legSeq {
      EarlierIsSpent(ctx, s, v, i);
    }
  }

  lemma AdvanceCases(ctx: Ctx, s: Swap, tb: Tb, leg: nat, action: LegAction)
    requires 1 <= leg <= LEGS && Active(s.rows, leg) >= 0 && s.rows[Active(s.rows, leg)].status != Created
    ensures
      var i := Active(s.rows, leg);
      var next := Transition(ctx.IsFiat(ctx.Spec(leg).side), s.rows[i].status, action);
      AdvanceBody(ctx, s, tb, leg, action)
      == if s.status != Processing || PriorOpen(s.rows, |s.rows|, leg) || next.None? then Throw(s, tb)
         else Follow(ctx, s, tb, i, next.value)
  {
    hide Follow, InitiatePending, Transition;
  }

  lemma ReviewIsIdle(isFiat: bool, action: LegAction)
    ensures Transition(isFiat, NeedsReview, action) == None
  {
  }

  lemma NoSuchLegThrows(ctx: Ctx, s: Swap, tb: Tb, leg: nat, action: LegAction)
    requires Active(s.rows, leg) < 0 || !(1 <= leg <= LEGS)
    ensures AdvanceBody(ctx, s, tb, leg, action) == Throw(s, tb)
  {
  }

  /** Advancing a leg never lacks cover. */
  lemma AdvanceHasCover(ctx: Ctx, s: Swap, tb: Tb, leg: nat, action: LegAction)
    requires Sharing(ctx, s, tb)
    ensures AdvanceBody(ctx, s, tb, leg, action) == AdvanceBody(ctx.Unflagged(), s, tb, leg, action)
  {
    hide AdvanceBody, Follow, Transition, Active, PriorOpen, Inv, Spent;
    var u, v, i := ctx.Unflagged(), View(tb, ctx.Source()), Active(s.rows, leg);
    if 1 <= leg <= LEGS && i >= 0 {
      ActiveKinds(u, s, v, leg);
      AdvanceCases(ctx, s, tb, leg, action);
      AdvanceCases(u, s, tb, leg, action);
      var next := Transition(ctx.IsFiat(ctx.Spec(leg).side), s.rows[i].status, action);
      ReviewIsIdle(ctx.IsFiat(ctx.Spec(leg).side), action);
      if s.status == Processing && next.Some? {
        FollowHasCover(ctx, s, tb, i, next.value);
      }
    } else {
      NoSuchLegThrows(ctx, s, tb, leg, action);
      NoSuchLegThrows(u, s, tb, leg, action);
    }
  }

  lemma FollowHasCover(ctx: Ctx, s: Swap, tb: Tb, i: nat, next: LegStatus)
    requires Sharing(ctx, s, tb) && i < |s.rows| && 1 <= s.rows[i].legSeq <= LEGS
    requires
      var u, v := ctx.Unflagged(), View(tb, ctx.Source());
      || Spent(u, v.log, s.rows[i])
      || (i == |s.rows| - 1 && Inv(u, s, v) && PhaseOf(s.rows[i].status) == Pending)
    ensures Follow(ctx, s, tb, i, next) == Follow(ctx.Unflagged(), s, tb, i, next)
  {
    hide LedgerInv, FlagsFit, Follow, Spent, ResolveLeg, Short, View;
    var u, v := ctx.Unflagged(), View(tb, ctx.Source());
    if Spent(u, v.log, s.rows[i]) {
      SpentOnShared(u, tb, s.rows[i], Posted);
      SpentOnShared(u, tb, s.rows[i], Voided);
    } else {
      assert InStep(u, s.rows, tb);
      if next == Clear && s.rows[i].legSeq < LEGS {
        FundsArePositive(ctx, s, tb);
        var post := NextHasCover(ctx, s.rows, tb);
      }
      if TerminalFail(next) {
        var voided := RetryHasCover(ctx, s.rows, tb, next);
      }
    }
    FollowsUnlessShort(ctx, s, tb, i, next);
  }

  lemma FundsArePositive(ctx: Ctx, s: Swap, tb: Tb)
    requires Sharing(ctx, s, tb)
    ensures ctx.grossTo > 0 && ctx.fee <= ctx.grossTo
  {
  }

  /** A resume for whose attempt the payable has no cover. */
  predicate Denied(ctx: Ctx, s: Swap, tb: Tb, op: Op) {
    op.Resume? && 1 <= op.leg <= LEGS && s.status == Processing
    && var i := Active(s.rows, op.leg);
       i >= 0 && s.rows[i].status == NeedsReview && ctx.WalletsFound(ctx.Spec(op.leg))
       && Short(ctx, tb, op.leg, s.rows[i].attempt + 1)
  }

  lemma ResumesUnlessDenied(ctx: Ctx, s: Swap, tb: Tb, leg: nat)
    requires FlagsFit(ctx)
    ensures ResumeBody(ctx, s, tb, leg)
         == if Denied(ctx, s, tb, Resume(leg)) then Throw(s, tb) else ResumeBody(ctx.Unflagged(), s, tb, leg)
  {
    hide CreateAndStart, Short, FlagsFit, Active;
    var i := Active(s.rows, leg);
    if 1 <= leg <= LEGS && i >= 0 {
      var attempt := s.rows[i].attempt + 1;
      StartsUnlessShort(ctx, s, tb, leg, attempt, [LegResumed(leg, attempt)]);
    }
  }

  /** Main theorem: of a swap under way on the shared ledger, the flag changes the outcome of a call
      exactly when the call is a resume without cover; that call is refused and leaves no trace. */
  lemma CappedStep(ctx: Ctx, s: Swap, tb: Tb, op: Op)
    requires Sharing(ctx, s, tb)
    ensures Step(ctx, s, tb, op)
         == if Denied(ctx, s, tb, op) then Outcome(false, s, tb) else Step(ctx.Unflagged(), s, tb, op)
  {
    assert FlagsFit(ctx);
    assert op.Advance? ==> !Denied(ctx, s, tb, op);
    hide AdvanceBody, ResumeBody, Denied, FlagsFit, Sharing;
    match op
    case Advance(leg, action) => AdvanceHasCover(ctx, s, tb, leg, action);
    case Resume(leg) => ResumesUnlessDenied(ctx, s, tb, leg);
  }

  /** And that call would have been granted without the flag. */
  lemma DeniedWouldResume(ctx: Ctx, s: Swap, tb: Tb, op: Op)
    requires Sharing(ctx, s, tb) && Denied(ctx, s, tb, op)
    ensures Step(ctx.Unflagged(), s, tb, op).ok
  {
    var u, v := ctx.Unflagged(), View(tb, ctx.Source());
    ActiveFacts(s.rows, op.leg);
    assert Inv(u, s, v) && op.leg == Last(s.rows).legSeq;
    hide Sound, Inv, ResumeBody, AdvanceBody, FlagsFit, Short;
    ResumeKeepsInv(u, s, v);
    StepLocal(u, s, tb, op);
  }

  // ── Creation ──

  /** The payable the swap is paid from, if it is flagged, has the amount free. */
  predicate Funded(ctx: Ctx, tb: Tb) {
    var key := (CLIENT_PAYABLE, From);
    key in ctx.accounts && ctx.accounts[key] in ctx.capped ==> ctx.fromAmount <= Free(tb, ctx.accounts[key])
  }

  /** On any shared ledger, under an unused number: a swap is created exactly when its first leg can
      start and the customer's payable, if flagged, has the amount free. For want of cover alone it
      is refused without a trace. */
  lemma CappedCreationIff(ctx: Ctx, tb: Tb)
    requires FlagsFit(ctx) && Proper(ctx.Unflagged()) && UniqueIds(tb.log) && View(tb, ctx.Source()).log == []
    ensures ExecuteSwap(ctx, tb).ok <==> CanStart(ctx.Unflagged(), tb, 1) && Funded(ctx, tb)
    ensures CanStart(ctx.Unflagged(), tb, 1) ==>
      (CLIENT_PAYABLE, From) in ctx.accounts && (Short(ctx, tb, 1, 1) <==> !Funded(ctx, tb))
    ensures Short(ctx, tb, 1, 1) ==> ExecuteSwap(ctx, tb).tb == tb || !ctx.WalletsFound(ctx.Spec(1))
    ensures !Short(ctx, tb, 1, 1) ==> ExecuteSwap(ctx, tb) == ExecuteSwap(ctx.Unflagged(), tb)
  {
    var u, s := ctx.Unflagged(), Swap(Processing, None, false, [], [SwapCreated]);
    StartsUnlessShort(ctx, s, tb, 1, 1, []);
    CreateAndStartLocal(u, s, tb, 1, 1, []);
    ExecuteEstablishesInv(u, View(tb, ctx.Source()));
    SameStart(u, tb, View(tb, ctx.Source()), 1);
    if CanStart(u, tb, 1) {
      FirstIdIsFree(ctx, tb);
      assert ctx.Spec(1).side == From && ctx.LegAmount(1) == ctx.fromAmount;
      ShortIff(ctx, tb, 1, 1);
    }
  }

  lemma FirstIdIsFree(ctx: Ctx, tb: Tb)
    requires FlagsFit(ctx) && UniqueIds(tb.log) && View(tb, ctx.Source()).log == []
    ensures ctx.Spec(1).entries != [] && !Has(tb.log, ctx.Id(ctx.Spec(1).entries[0].event, 1))
  {
    PlanDebits(ctx.fromIsFiat, 1);
    MineFind(tb.log, ctx.Id(ctx.Spec(1).entries[0].event, 1));
  }

  lemma FirstIdsAreFree(ctx: Ctx, tb: Tb)
    requires UniqueIds(tb.log) && View(tb, ctx.Source()).log == []
    ensures Fresh(ctx, tb.log, ctx.Spec(1).entries, 1)
  {
    forall e | e in ctx.Spec(1).entries ensures !Has(tb.log, ctx.Id(e.event, 1)) {
      MineFind(tb.log, ctx.Id(e.event, 1));
    }
  }

  /** A swap created takes its from amount off what is free on the flagged payable, and touches no
      other document. */
  lemma CreationTakesCover(ctx: Ctx, tb: Tb)
    requires FlagsFit(ctx) && Proper(ctx.Unflagged()) && UniqueIds(tb.log) && View(tb, ctx.Source()).log == []
    requires ExecuteSwap(ctx, tb).ok
    ensures CanStart(ctx.Unflagged(), tb, 1) && (CLIENT_PAYABLE, From) in ctx.accounts
    ensures LocalTo(tb, ExecuteSwap(ctx, tb).tb, View(ExecuteSwap(ctx, tb).tb, ctx.Source()), ctx.Source())
    ensures
      var a := ctx.accounts[(CLIENT_PAYABLE, From)];
      a in ctx.capped ==> Free(ExecuteSwap(ctx, tb).tb, a) == Free(tb, a) - ctx.fromAmount
  {
    hide CreateAndStart, Short, CanStart, FlagsFit, Free, Expected, SwapLegPlan;
    var u, s := ctx.Unflagged(), Swap(Processing, None, false, [], [SwapCreated]);
    CappedCreationIff(ctx, tb);
    CreateAndStartLocal(u, s, tb, 1, 1, []);
    FirstIdsAreFree(u, tb);
    FirstStart(u, s, tb, 1);
    var a := ctx.accounts[(CLIENT_PAYABLE, From)];
    if a in ctx.capped {
      FirstBatchAdds(ctx, tb, a);
      FreeIsSum(tb, a);
      FreeIsSum(ExecuteSwap(ctx, tb).tb, a);
      SumConcat(tb.log, LeftByStart(u, tb, 1), Adds(a));
    }
  }

  lemma FirstBatchAdds(ctx: Ctx, tb: Tb, a: nat)
    requires FlagsFit(ctx) && Proper(ctx.Unflagged()) && CanStart(ctx.Unflagged(), tb, 1)
    requires (CLIENT_PAYABLE, From) in ctx.accounts && ctx.accounts[(CLIENT_PAYABLE, From)] == a && a in ctx.capped
    ensures Sum(LeftByStart(ctx.Unflagged(), tb, 1), Adds(a)) == 0 - ctx.fromAmount
  {
    assert ctx.Spec(1).side == From && ctx.LegAmount(1) == ctx.fromAmount;
    LegAdds(ctx, tb, 1, 1, Pending);
  }

  /** Two swaps out of one flagged payable, each of which would be created alone: once the first is,
      the second is created exactly when there is cover for both. */
  lemma SwapsCompeteForCover(x: Ctx, y: Ctx, tb: Tb)
    requires FlagsFit(x) && Proper(x.Unflagged()) && View(tb, x.Source()).log == []
    requires FlagsFit(y) && Proper(y.Unflagged()) && View(tb, y.Source()).log == []
    requires UniqueIds(tb.log) && x.swapNo != y.swapNo && x.capped == y.capped
    requires ExecuteSwap(x, tb).ok && ExecuteSwap(y, tb).ok
    ensures (CLIENT_PAYABLE, From) in x.accounts && (CLIENT_PAYABLE, From) in y.accounts
    ensures
      var a := x.accounts[(CLIENT_PAYABLE, From)];
      a in x.capped && a == y.accounts[(CLIENT_PAYABLE, From)] ==>
        (ExecuteSwap(y, ExecuteSwap(x, tb).tb).ok <==> x.fromAmount + y.fromAmount <= Free(tb, a))
  {
    hide CreateAndStart, Short, CanStart, FlagsFit, Proper, Free;
    var after := ExecuteSwap(x, tb).tb;
    CreationTakesCover(x, tb);
    CreationTakesCover(y, tb);
    CappedCreationIff(y, after);
    SameStart(y.Unflagged(), tb, after, 1);
  }

  // ── No swap overdraws a flagged account ──

  lemma {:induction false} BookingKeepsSolvent(ctx: Ctx, spec: LegSpec, entries: seq<Entry>, attempt: nat, tb: Tb)
    requires Solvent(tb, ctx.capped)
    ensures Solvent(InitiatePending(ctx, spec, entries, attempt, tb).tb, ctx.capped)
    decreases |entries|
  {
    if entries != [] && ctx.Amount(spec.amount) > 0 {
      var e := entries[0];
      if ctx.Resolves(e.debitCode, spec.side) && ctx.Resolves(e.creditCode, spec.side) {
        var t := TransferFor(ctx, spec, e, attempt, Pending);
        if CreateCapped(tb, ctx.capped, t).Ok? {
          CreateKeepsSolvent(tb, ctx.capped, t);
          BookingKeepsSolvent(ctx, spec, entries[1..], attempt, CreateCapped(tb, ctx.capped, t).value);
        }
      }
    }
  }

  lemma {:induction false} SettlingKeepsSolvent(
      ctx: Ctx, spec: LegSpec, entries: seq<Entry>, attempt: nat, tb: Tb, outcome: Phase)
    requires Solvent(tb, ctx.capped)
    ensures Solvent(ResolveLeg(ctx, spec, entries, attempt, tb, outcome).tb, ctx.capped)
    decreases |entries|
  {
    if entries != [] && ctx.Amount(spec.amount) > 0 {
      var id, amount := ctx.Id(entries[0].event, attempt), ctx.Amount(spec.amount);
      if Resolve(tb, id, amount, outcome).Ok? {
        ResolveKeepsSolvent(tb, ctx.capped, id, amount, outcome);
        SettlingKeepsSolvent(ctx, spec, entries[1..], attempt, Resolve(tb, id, amount, outcome).value, outcome);
      }
    }
  }

  lemma StartingKeepsSolvent(ctx: Ctx, s: Swap, tb: Tb, leg: nat, attempt: nat, audits: seq<Audit>)
    requires Solvent(tb, ctx.capped) && 1 <= leg <= LEGS
    ensures Solvent(CreateAndStart(ctx, s, tb, leg, attempt, audits).tb, ctx.capped)
  {
    BookingKeepsSolvent(ctx, ctx.Spec(leg), ctx.Spec(leg).entries, attempt, tb);
  }

  lemma FollowKeepsSolvent(ctx: Ctx, s: Swap, tb: Tb, i: nat, next: LegStatus)
    requires Solvent(tb, ctx.capped) && i < |s.rows| && 1 <= s.rows[i].legSeq <= LEGS
    ensures Solvent(Follow(ctx, s, tb, i, next).tb, ctx.capped)
  {
    var row := s.rows[i];
    var s1 := s.(rows := s.rows[i := row.(status := next)]);
    var spec := ctx.Spec(row.legSeq);
    hide InitiatePending, CreateAndStart, ResolveLeg, Solvent, Transition;
    if next == Clear {
      var post := ResolveLeg(ctx, spec, spec.entries, row.attempt, tb, Posted);
      SettlingKeepsSolvent(ctx, spec, spec.entries, row.attempt, tb, Posted);
      if row.legSeq < LEGS {
        StartingKeepsSolvent(ctx, s1.(audits := s1.audits + [LegPosted(row.legSeq, row.attempt)]), post.tb,
                             row.legSeq + 1, 1, []);
      }
    } else if TerminalFail(next) {
      var voided := ResolveLeg(ctx, spec, spec.entries, row.attempt, tb, Voided);
      SettlingKeepsSolvent(ctx, spec, spec.entries, row.attempt, tb, Voided);
      StartingKeepsSolvent(ctx, s1, voided.tb, row.legSeq, row.attempt + 1, [LegRetried(row.legSeq, row.attempt)]);
    }
  }

  /** Whatever state the swap is in. */
  lemma StepKeepsSolvent(ctx: Ctx, s: Swap, tb: Tb, op: Op)
    requires Solvent(tb, ctx.capped)
    ensures Solvent(Step(ctx, s, tb, op).tb, ctx.capped)
  {
    hide AdvanceBody, CreateAndStart, Solvent;
    match op
    case Advance(leg, action) => AdvanceKeepsSolvent(ctx, s, tb, leg, action);
    case Resume(leg) =>
      var i := Active(s.rows, leg);
      if i >= 0 && 1 <= leg <= LEGS {
        StartingKeepsSolvent(ctx, s, tb, leg, s.rows[i].attempt + 1, [LegResumed(leg, s.rows[i].attempt + 1)]);
      }
  }

  lemma AdvanceKeepsSolvent(ctx: Ctx, s: Swap, tb: Tb, leg: nat, action: LegAction)
    requires Solvent(tb, ctx.capped)
    ensures Solvent(AdvanceBody(ctx, s, tb, leg, action).tb, ctx.capped)
  {
    AdvanceSpelledOut(ctx, s, tb, leg, action);
    if Admitted(s, leg) {
      hide AdvanceBody, Follow, InitiatePending, Solvent, Transition;
      BookingKeepsSolvent(ctx, ctx.Spec(leg), ctx.Spec(leg).entries, 1, tb);
      var i, pend := Active(s.rows, leg), Pend(ctx, s, tb, leg);
      var next := Transition(ctx.IsFiat(ctx.Spec(leg).side), s.rows[i].status, action);
      if pend.ok && next.Some? {
        FollowKeepsSolvent(ctx, s, pend.tb, i, next.value);
      }
    }
  }

  // ── A swap's calls on the shared ledger, flags and all ──

  /** Either no account of the swap is flagged, or only payables are and the fee does not exceed the
      proceeds. */
  predicate CoverFits(ctx: Ctx) {
    ctx.capped == {} || (FlagsFit(ctx) && ctx.fee <= ctx.grossTo)
  }

  /** The outcome on the swap's own share of the ledger, which knows no flags. */
  function Alone(ctx: Ctx, s: Swap, tb: Tb, op: Op): Outcome {
    if Denied(ctx, s, tb, op) then Outcome(false, s, View(tb, ctx.Source()))
    else Step(ctx.Unflagged(), s, View(tb, ctx.Source()), op)
  }

  lemma NoFlagsNoDenial(ctx: Ctx, s: Swap, tb: Tb, op: Op)
    requires ctx.capped == {}
    ensures !Denied(ctx, s, tb, op) && ctx.Unflagged() == ctx
  {
  }

  /** A call answers on the shared ledger as on the swap's own share of it, except that a resume
      without cover is refused. */
  lemma SharedStep(ctx: Ctx, s: Swap, tb: Tb, op: Op)
    requires CoverFits(ctx) && Solvent(tb, ctx.capped) && UniqueIds(tb.log)
    requires Sound(ctx.Unflagged(), s, View(tb, ctx.Source()))
    ensures SameOutcome(tb, Step(ctx, s, tb, op), Alone(ctx, s, tb, op), ctx.Source())
    ensures Solvent(Step(ctx, s, tb, op).tb, ctx.capped)
  {
    StepKeepsSolvent(ctx, s, tb, op);
    StepLocal(ctx.Unflagged(), s, tb, op);
    if ctx.capped == {} {
      NoFlagsNoDenial(ctx, s, tb, op);
    } else {
      CappedStep(ctx, s, tb, op);
    }
    hide Step, Denied, Sound, Solvent, FlagsFit;
  }
}
