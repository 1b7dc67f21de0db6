/** What a swap's ledger calls do: the log a history of rows accounts for, and the batches that
    keep the log in step with the rows. */
module SwapLedger {
  import opened Prelude
  import opened Ledger
  import opened SwapModel

  /** The phase a row's transfers must be in. */
  function PhaseOf(s: LegStatus): Phase {
    if s == Clear then Posted
    else if TerminalFail(s) || s == NeedsReview then Voided
    else Pending
  }

  function TransferFor(ctx: Ctx, spec: LegSpec, e: Entry, attempt: nat, phase: Phase): Transfer
    requires ctx.Resolves(e.debitCode, spec.side) && ctx.Resolves(e.creditCode, spec.side)
  {
    Transfer(ctx.Id(e.event, attempt), ctx.accounts[(e.debitCode, spec.side)],
             ctx.accounts[(e.creditCode, spec.side)], ctx.Amount(spec.amount), ctx.LedgerOf(spec.side), true, phase)
  }

  function Transfers(ctx: Ctx, spec: LegSpec, entries: seq<Entry>, attempt: nat, phase: Phase): seq<Transfer>
    requires ctx.Amount(spec.amount) > 0 ==> forall e :: e in entries ==>
      ctx.Resolves(e.debitCode, spec.side) && ctx.Resolves(e.creditCode, spec.side)
  {
    if entries == [] || ctx.Amount(spec.amount) == 0 then []
    else [TransferFor(ctx, spec, entries[0], attempt, phase)] + Transfers(ctx, spec, entries[1..], attempt, phase)
  }

  /** The registry knows the account, and the ledger has it. */
  predicate AccountReady(ctx: Ctx, tb: Tb, code: nat, side: Side) {
    && ctx.Resolves(code, side)
    && ctx.accounts[(code, side)] in tb.accounts
    && tb.accounts[ctx.accounts[(code, side)]].ledger == ctx.LedgerOf(side)
  }

  predicate EntryReady(ctx: Ctx, tb: Tb, e: Entry, side: Side) {
    && AccountReady(ctx, tb, e.debitCode, side) && AccountReady(ctx, tb, e.creditCode, side)
    && ctx.accounts[(e.debitCode, side)] != ctx.accounts[(e.creditCode, side)]
  }

  /** The leg's transfers, if it has any, can be recorded. */
  predicate LegReady(ctx: Ctx, tb: Tb, leg: nat)
    requires 1 <= leg <= LEGS
  {
    ctx.LegAmount(leg) > 0 ==> forall e :: e in ctx.Spec(leg).entries ==> EntryReady(ctx, tb, e, ctx.Spec(leg).side)
  }

  /** Everything the workflow needs to start an attempt of the leg: its wallets, its accounts, and
      a right guess of its side's kind. */
  predicate CanStart(ctx: Ctx, tb: Tb, leg: nat) {
    && 1 <= leg <= LEGS && LegReady(ctx, tb, leg) && ctx.WalletsFound(ctx.Spec(leg))
    && ctx.StartsFiat(ctx.Spec(leg).side) == ctx.IsFiat(ctx.Spec(leg).side)
  }

  /** A swap of positive amounts under a well-formed plan. */
  predicate Proper(ctx: Ctx) { ctx.fromAmount > 0 && ctx.grossTo > 0 && Plain(ctx) }

  /** A well-formed plan, over accounts without the no-overdraft flag. */
  predicate Plain(ctx: Ctx) { ctx.capped == {} && PlanOk(ctx.plan) }

  /** A swap none of whose legs will fail to start. */
  predicate Configured(ctx: Ctx, tb: Tb) {
    Proper(ctx) && forall leg :: 1 <= leg <= LEGS ==> CanStart(ctx, tb, leg)
  }

  /** The legs of these rows could start. */
  predicate RowsReady(ctx: Ctx, tb: Tb, rows: seq<LegRow>) {
    Plain(ctx) && forall i :: 0 <= i < |rows| ==> CanStart(ctx, tb, rows[i].legSeq)
  }

  function RowTransfers(ctx: Ctx, tb: Tb, r: LegRow): seq<Transfer>
    requires CanStart(ctx, tb, r.legSeq)
  {
    Transfers(ctx, ctx.Spec(r.legSeq), ctx.Spec(r.legSeq).entries, r.attempt, PhaseOf(r.status))
  }

  predicate LegsInRange(rows: seq<LegRow>) {
    forall i :: 0 <= i < |rows| ==> 1 <= rows[i].legSeq <= LEGS
  }

  /** The log a history of rows accounts for: each row's transfers, in creation order. */
  function Expected(ctx: Ctx, tb: Tb, rows: seq<LegRow>): seq<Transfer>
    requires RowsReady(ctx, tb, rows)
  {
    if rows == [] then []
    else Expected(ctx, tb, rows[..|rows| - 1]) + RowTransfers(ctx, tb, rows[|rows| - 1])
  }

  // ── Distinct events, distinct accounts ──

  /** The leg an event belongs to, in both plans. */
  function LegOf(event: Event): nat {
    match event
    case SwapSellClient | SwapSellFirm => 1
    case SwapSellSetToOps | SwapBuyOpsToSet => 2
    case SwapBuyOpsToAsset | SwapBuySetToAsset | SwapBuyClient => 3
    case SwapFeeClient | SwapFeeFirm => 4
    case _ => 0
  }

  /** What the workflow relies on: no event is used twice, no entry is a self-transfer, and only
      the fee leg can be of amount zero. */
  predicate SpecOk(plan: Plan, leg: nat)
    requires 1 <= leg <= LEGS
  {
    var spec := plan[leg - 1];
    && spec.entries != [] && DistinctEvents(spec.entries)
    && (leg < LEGS ==> spec.amount != FeeAmount)
    && forall e :: e in spec.entries ==> LegOf(e.event) == leg && e.debitCode != e.creditCode
  }

  predicate PlanOk(plan: Plan) { forall leg :: 1 <= leg <= LEGS ==> SpecOk(plan, leg) }

  lemma LegPlanOk(fromIsFiat: bool, leg: nat)
    requires 1 <= leg <= LEGS
    ensures SpecOk(SwapLegPlan(fromIsFiat), leg)
  {
  }

  lemma SwapLegPlanOk(fromIsFiat: bool)
    ensures PlanOk(SwapLegPlan(fromIsFiat))
  {
    forall leg | 1 <= leg <= LEGS ensures SpecOk(SwapLegPlan(fromIsFiat), leg) {
      LegPlanOk(fromIsFiat, leg);
    }
  }

  /** Every entry of the plan moves money inside the client book or inside the firm book. */
  lemma PlanMovesWithinABook(fromIsFiat: bool, leg: nat, e: Entry)
    requires 1 <= leg <= LEGS && e in SwapLegPlan(fromIsFiat)[leg - 1].entries
    ensures e.debitCode in {CLIENT_PAYABLE, CLIENT_ASSET} <==> e.creditCode in {CLIENT_PAYABLE, CLIENT_ASSET}
    ensures e.debitCode in {FIRM_ASSET, FIRM_OPS, FIRM_SET, FIRM_FEE}
       <==> e.creditCode in {FIRM_ASSET, FIRM_OPS, FIRM_SET, FIRM_FEE}
  {
  }

  // ── The two batches ──

  predicate Fresh(ctx: Ctx, log: seq<Transfer>, entries: seq<Entry>, attempt: nat) {
    forall e :: e in entries ==> !Has(log, ctx.Id(e.event, attempt))
  }

  predicate DistinctEvents(entries: seq<Entry>) {
    forall i, j :: 0 <= i < j < |entries| ==> entries[i].event != entries[j].event
  }

  predicate EntriesReady(ctx: Ctx, tb: Tb, spec: LegSpec, entries: seq<Entry>) {
    ctx.Amount(spec.amount) > 0 ==> forall e :: e in entries ==> EntryReady(ctx, tb, e, spec.side)
  }

  /** Recording one entry's transfer leaves the other entries' ids free. */
  lemma StillFresh(ctx: Ctx, log: seq<Transfer>, entries: seq<Entry>, attempt: nat, t: Transfer)
    requires entries != [] && DistinctEvents(entries) && Fresh(ctx, log, entries, attempt)
    requires t.id == ctx.Id(entries[0].event, attempt)
    ensures Fresh(ctx, log + [t], entries[1..], attempt)
  {
    forall x | x in entries[1..] ensures !Has(log + [t], ctx.Id(x.event, attempt)) {
      IndexOfConcat(log, [t], ctx.Id(x.event, attempt));
      assert x in entries;
      assert IndexOf([t], ctx.Id(x.event, attempt)) == 1;
    }
  }

  /** The entries up to the first one whose transfer cannot be recorded. */
  function Bookable(ctx: Ctx, tb: Tb, spec: LegSpec, entries: seq<Entry>): (r: seq<Entry>)
    ensures forall e :: e in r ==> e in entries && EntryReady(ctx, tb, e, spec.side)
    ensures r == entries <==> forall e :: e in entries ==> EntryReady(ctx, tb, e, spec.side)
  {
    if entries == [] || !EntryReady(ctx, tb, entries[0], spec.side) then []
    else
      var rest := Bookable(ctx, tb, spec, entries[1..]);
      assert [entries[0]] + entries[1..] == entries;
      assert ([entries[0]] + rest)[1..] == rest;
      [entries[0]] + rest
  }

  /** Booking an attempt under free ids records a pending transfer for each entry up to the first
      impossible one, and succeeds exactly when there is none. */
  lemma {:induction false} InitiateBooks(ctx: Ctx, spec: LegSpec, entries: seq<Entry>, attempt: nat, tb: Tb)
    requires DistinctEvents(entries) && Fresh(ctx, tb.log, entries, attempt) && ctx.capped == {}
    ensures InitiatePending(ctx, spec, entries, attempt, tb)
         == TbOut(EntriesReady(ctx, tb, spec, entries),
                  tb.(log := tb.log + Transfers(ctx, spec, Bookable(ctx, tb, spec, entries), attempt, Pending)))
  {
    if entries == [] || ctx.Amount(spec.amount) == 0 {
      assert tb.log + [] == tb.log;
    } else {
      var e := entries[0];
      assert e in entries && !Has(tb.log, ctx.Id(e.event, attempt));
      if EntryReady(ctx, tb, e, spec.side) {
        BookFirst(ctx, spec, entries, attempt, tb);
        var t := TransferFor(ctx, spec, e, attempt, Pending);
        StillFresh(ctx, tb.log, entries, attempt, t);
        InitiateBooks(ctx, spec, entries[1..], attempt, tb.(log := tb.log + [t]));
        SameBookable(ctx, tb, tb.(log := tb.log + [t]), spec, entries[1..]);
        BookRest(ctx, tb, spec, entries, attempt, t);
      } else {
        assert tb.log + [] == tb.log;
      }
    }
  }

  lemma BookFirst(ctx: Ctx, spec: LegSpec, entries: seq<Entry>, attempt: nat, tb: Tb)
    requires entries != [] && ctx.Amount(spec.amount) > 0 && EntryReady(ctx, tb, entries[0], spec.side)
    requires !Has(tb.log, ctx.Id(entries[0].event, attempt)) && ctx.capped == {}
    ensures
      var t := TransferFor(ctx, spec, entries[0], attempt, Pending);
      InitiatePending(ctx, spec, entries, attempt, tb)
      == InitiatePending(ctx, spec, entries[1..], attempt, tb.(log := tb.log + [t]))
  {
    var t := TransferFor(ctx, spec, entries[0], attempt, Pending);
    assert Create(tb, t) == Ok(tb.(log := tb.log + [t]));
  }

  lemma BookRest(ctx: Ctx, tb: Tb, spec: LegSpec, entries: seq<Entry>, attempt: nat, t: Transfer)
    requires entries != [] && ctx.Amount(spec.amount) > 0 && EntryReady(ctx, tb, entries[0], spec.side)
    requires t == TransferFor(ctx, spec, entries[0], attempt, Pending)
    ensures tb.log + Transfers(ctx, spec, Bookable(ctx, tb, spec, entries), attempt, Pending)
         == tb.log + [t] + Transfers(ctx, spec, Bookable(ctx, tb, spec, entries[1..]), attempt, Pending)
    ensures EntriesReady(ctx, tb, spec, entries) <==> EntriesReady(ctx, tb, spec, entries[1..])
  {
    var all, rest := Bookable(ctx, tb, spec, entries), Bookable(ctx, tb, spec, entries[1..]);
    assert all == [entries[0]] + rest && all[1..] == rest;
    assert entries == [entries[0]] + entries[1..];
  }

  lemma {:induction false} SameBookable(ctx: Ctx, tb: Tb, tb': Tb, spec: LegSpec, entries: seq<Entry>)
    requires tb.accounts == tb'.accounts
    ensures Bookable(ctx, tb', spec, entries) == Bookable(ctx, tb, spec, entries)
    ensures EntriesReady(ctx, tb', spec, entries) <==> EntriesReady(ctx, tb, spec, entries)
  {
    forall e | e in entries ensures EntryReady(ctx, tb', e, spec.side) <==> EntryReady(ctx, tb, e, spec.side) { }
    if entries != [] {
      SameBookable(ctx, tb, tb', spec, entries[1..]);
    }
  }

  /** Booking an attempt all of whose transfers can be recorded appends exactly those. */
  lemma InitiateAppends(ctx: Ctx, spec: LegSpec, entries: seq<Entry>, attempt: nat, tb: Tb)
    requires EntriesReady(ctx, tb, spec, entries) && DistinctEvents(entries) && Fresh(ctx, tb.log, entries, attempt)
    requires ctx.capped == {}
    ensures InitiatePending(ctx, spec, entries, attempt, tb)
         == TbOut(true, tb.(log := tb.log + Transfers(ctx, spec, entries, attempt, Pending)))
  {
    InitiateBooks(ctx, spec, entries, attempt, tb);
  }

  lemma AppendAssociates(a: seq<Transfer>, b: seq<Transfer>, c: seq<Transfer>)
    ensures a + b + c == a + (b + c)
  {
  }

  lemma ResolveAt(tb: Tb, pre: seq<Transfer>, t: Transfer, rest: seq<Transfer>, outcome: Phase)
    requires tb.log == pre + ([t] + rest) && !Has(pre, t.id) && t.twoPhase && t.phase == Pending
    ensures Resolve(tb, t.id, t.amount, outcome) == Ok(tb.(log := (pre + [t.(phase := outcome)]) + rest))
  {
    IndexOfConcat(pre, [t] + rest, t.id);
    assert ([t] + rest)[0].id == t.id;
    assert IndexOf(tb.log, t.id) == |pre|;
    assert tb.log[|pre| := t.(phase := outcome)] == (pre + [t.(phase := outcome)]) + rest;
  }

  lemma RestReady(ctx: Ctx, tb: Tb, spec: LegSpec, entries: seq<Entry>)
    requires EntriesReady(ctx, tb, spec, entries) && DistinctEvents(entries)
    requires entries != [] && ctx.Amount(spec.amount) > 0
    ensures EntryReady(ctx, tb, entries[0], spec.side)
    ensures EntriesReady(ctx, tb, spec, entries[1..]) && DistinctEvents(entries[1..])
  {
    assert entries[0] in entries && forall x :: x in entries[1..] ==> x in entries;
  }

  /** Resolving the first entry's transfer leaves the rest of the attempt to resolve. */
  lemma ResolveFirst(
      ctx: Ctx, spec: LegSpec, entries: seq<Entry>, attempt: nat, tb: Tb, tb': Tb, id: TransferId, outcome: Phase)
    requires entries != [] && ctx.Amount(spec.amount) > 0 && id == ctx.Id(entries[0].event, attempt)
    requires Resolve(tb, id, ctx.Amount(spec.amount), outcome) == Ok(tb')
    ensures ResolveLeg(ctx, spec, entries, attempt, tb, outcome)
         == ResolveLeg(ctx, spec, entries[1..], attempt, tb', outcome)
  {
  }

  /** Resolving an attempt whose transfers end the log rewrites exactly their phase. */
  lemma {:induction false} ResolveRewrites(
      ctx: Ctx, spec: LegSpec, entries: seq<Entry>, attempt: nat, tb: Tb, pre: seq<Transfer>, outcome: Phase)
    requires EntriesReady(ctx, tb, spec, entries) && DistinctEvents(entries) && Fresh(ctx, pre, entries, attempt)
    requires tb.log == pre + Transfers(ctx, spec, entries, attempt, Pending)
    ensures ResolveLeg(ctx, spec, entries, attempt, tb, outcome)
         == TbOut(true, tb.(log := pre + Transfers(ctx, spec, entries, attempt, outcome)))
  {
    if entries != [] && ctx.Amount(spec.amount) > 0 {
      RestReady(ctx, tb, spec, entries);
      hide ResolveLeg, DistinctEvents, Resolve, Has, IndexOf;
      var t := TransferFor(ctx, spec, entries[0], attempt, Pending);
      var t' := t.(phase := outcome);
      var rest := Transfers(ctx, spec, entries[1..], attempt, Pending);
      ResolveAt(tb, pre, t, rest, outcome);
      var tb' := tb.(log := (pre + [t']) + rest);
      ResolveFirst(ctx, spec, entries, attempt, tb, tb', t.id, outcome);
      StillFresh(ctx, pre, entries, attempt, t');
      ResolveRewrites(ctx, spec, entries[1..], attempt, tb', pre + [t'], outcome);
      AppendAssociates(pre, [t'], Transfers(ctx, spec, entries[1..], attempt, outcome));
    }
  }

  /** The first transfer of a batch is found in the phase of the batch. */
  lemma FirstOfBatch(
      ctx: Ctx, spec: LegSpec, entries: seq<Entry>, attempt: nat, log: seq<Transfer>,
      pre: seq<Transfer>, post: seq<Transfer>, phase: Phase)
    requires ctx.Amount(spec.amount) > 0 ==> forall e :: e in entries ==>
      ctx.Resolves(e.debitCode, spec.side) && ctx.Resolves(e.creditCode, spec.side)
    requires Fresh(ctx, pre, entries, attempt) && entries != [] && ctx.Amount(spec.amount) > 0
    requires log == pre + Transfers(ctx, spec, entries, attempt, phase) + post
    ensures
      var id := ctx.Id(entries[0].event, attempt);
      Has(log, id) && log[IndexOf(log, id)].phase == phase
  {
    var id := ctx.Id(entries[0].event, attempt);
    var ts := Transfers(ctx, spec, entries, attempt, phase);
    assert log == pre + (ts + post);
    IndexOfConcat(pre, ts + post, id);
    assert !Has(pre, id) && (ts + post)[0].id == id;
    assert IndexOf(log, id) == |pre| && log[|pre|] == ts[0];
  }
}
