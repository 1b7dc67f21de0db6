/** The four-leg swap: leg state machines, leg plans, and the workflow's operations as functions
    of the swap's rows and the ledger. The rows live in a database transaction that rolls back
    when a step throws; the ledger is a separate system, and what was sent to it stays. */
module SwapModel {
  import opened Prelude
  import opened Ledger

  // ── Leg state machines ──

  datatype LegStatus =
    | Created | Signing | Broadcasted | Confirming | Confirmed | Clear
    | Failed | TimedOut | Returned | NeedsReview | Cancelled

  datatype LegAction =
    | Sign | Broadcast | SignFail | SeenInMempool | Drop | Expire | Confirm | Fail
    | Settle | Submit | Return | Cancel | Reorg

  function CryptoTransition(s: LegStatus, a: LegAction): Option<LegStatus> {
    match (s, a)
    case (Created, Sign) => Some(Signing)
    case (Created, Cancel) => Some(Cancelled)
    case (Signing, Broadcast) => Some(Broadcasted)
    case (Signing, SignFail) => Some(Failed)
    case (Signing, Cancel) => Some(Cancelled)
    case (Broadcasted, SeenInMempool) => Some(Confirming)
    case (Broadcasted, Drop) => Some(Failed)
    case (Broadcasted, Expire) => Some(TimedOut)
    case (Broadcasted, Cancel) => Some(Cancelled)
    case (Confirming, Confirm) => Some(Confirmed)
    case (Confirming, Reorg) => Some(Broadcasted)
    case (Confirming, Fail) => Some(Failed)
    case (Confirming, Expire) => Some(TimedOut)
    case (Confirming, Cancel) => Some(Cancelled)
    case (Confirmed, Settle) => Some(Clear)
    case _ => None
  }

  function FiatTransition(s: LegStatus, a: LegAction): Option<LegStatus> {
    match (s, a)
    case (Created, Submit) => Some(Confirming)
    case (Created, Cancel) => Some(Cancelled)
    case (Confirming, Confirm) => Some(Confirmed)
    case (Confirming, Fail) => Some(Failed)
    case (Confirming, Expire) => Some(TimedOut)
    case (Confirmed, Settle) => Some(Clear)
    case (Confirmed, Return) => Some(Returned)
    case (Clear, Return) => Some(Returned)
    case _ => None
  }

  function Transition(isFiat: bool, s: LegStatus, a: LegAction): Option<LegStatus> {
    if isFiat then FiatTransition(s, a) else CryptoTransition(s, a)
  }

  predicate TerminalFail(s: LegStatus) { s == Failed || s == TimedOut || s == Returned }

  // ── Leg plans ──

  datatype Side = From | To
  datatype AmountRef = FromAmount | GrossTo | FeeAmount
  datatype Entry = Entry(event: Event, debitCode: nat, creditCode: nat)

  /** Whose wallet a leg leaves or enters. */
  datatype Role = CustomerDeposit | CustomerViban | FirmOpsWallet | FirmSetWallet | FirmFeeWallet

  datatype LegSpec = LegSpec(side: Side, amount: AmountRef, fromRole: Role, toRole: Role, entries: seq<Entry>)

  const LEGS: nat := 4
  const MAX_LEG_ATTEMPTS: nat := 3

  type Plan = p: seq<LegSpec> | |p| == LEGS witness
    [FeeLeg(CustomerDeposit), FeeLeg(CustomerDeposit), FeeLeg(CustomerDeposit), FeeLeg(CustomerDeposit)]

  function SwapLegPlan(fromIsFiat: bool): Plan {
    if fromIsFiat then
      [ LegSpec(From, FromAmount, CustomerViban, FirmSetWallet, [
          Entry(SwapSellClient, CLIENT_PAYABLE, CLIENT_ASSET),
          Entry(SwapSellFirm, FIRM_ASSET, FIRM_SET)]),
        LegSpec(From, FromAmount, FirmSetWallet, FirmOpsWallet, [Entry(SwapSellSetToOps, FIRM_SET, FIRM_OPS)]),
        LegSpec(To, GrossTo, FirmOpsWallet, CustomerDeposit, [
          Entry(SwapBuyOpsToAsset, FIRM_OPS, FIRM_ASSET),
          Entry(SwapBuyClient, CLIENT_ASSET, CLIENT_PAYABLE)]),
        FeeLeg(CustomerDeposit) ]
    else
      [ LegSpec(From, FromAmount, CustomerDeposit, FirmOpsWallet, [
          Entry(SwapSellClient, CLIENT_PAYABLE, CLIENT_ASSET),
          Entry(SwapSellFirm, FIRM_ASSET, FIRM_OPS)]),
        LegSpec(To, GrossTo, FirmOpsWallet, FirmSetWallet, [Entry(SwapBuyOpsToSet, FIRM_OPS, FIRM_SET)]),
        LegSpec(To, GrossTo, FirmSetWallet, CustomerViban, [
          Entry(SwapBuySetToAsset, FIRM_SET, FIRM_ASSET),
          Entry(SwapBuyClient, CLIENT_ASSET, CLIENT_PAYABLE)]),
        FeeLeg(CustomerViban) ]
  }

  function FeeLeg(payer: Role): LegSpec {
    LegSpec(To, FeeAmount, payer, FirmFeeWallet, [
      Entry(SwapFeeClient, CLIENT_PAYABLE, CLIENT_ASSET),
      Entry(SwapFeeFirm, FIRM_ASSET, FIRM_FEE)])
  }

  /** `assertInternalFundLegRules`: the customer's wallet first, then the firm's; or both of the
      firm's. */
  predicate LegRules(spec: LegSpec, fromFound: bool, toFound: bool) {
    var fromIsCustomer := spec.fromRole.CustomerDeposit? || spec.fromRole.CustomerViban?;
    var toIsCustomer := spec.toRole.CustomerDeposit? || spec.toRole.CustomerViban?;
    if fromIsCustomer || toIsCustomer then
      var customerFound := if fromIsCustomer then fromFound else toFound;
      var firmFound := if fromIsCustomer then toFound else fromFound;
      customerFound && firmFound
    else fromFound && toFound
  }

  /** Amounts are in minor units; `accounts` is the registry's answer for each code and side, and
      `wallets` the roles whose wallet is found on each side; `capped` are the accounts opened with
      the no-overdraft flag; `plan` is `SwapLegPlan(fromIsFiat)`, kept abstract where only its shape
      matters. */
  datatype Ctx = Ctx(
    swapNo: string, fromIsFiat: bool, toIsFiat: bool, fromAmount: nat, grossTo: nat, fee: nat,
    fromLedger: nat, toLedger: nat, accounts: map<(nat, Side), nat>, wallets: set<(Role, Side)>,
    capped: set<nat>, plan: Plan)
  {
    function Source(): Source { Ledger.Source.Source(SwapKind, swapNo) }
    function IsFiat(side: Side): bool { if side.From? then fromIsFiat else toIsFiat }
    function LedgerOf(side: Side): nat { if side.From? then fromLedger else toLedger }
    function Amount(ref: AmountRef): nat {
      match ref case FromAmount => fromAmount case GrossTo => grossTo case FeeAmount => fee
    }
    function Spec(leg: nat): LegSpec requires 1 <= leg <= LEGS { plan[leg - 1] }
    function LegAmount(leg: nat): nat requires 1 <= leg <= LEGS { Amount(Spec(leg).amount) }
    /** The workflow's own guess of a side's kind: the to side is fiat when the from side is not. */
    function StartsFiat(side: Side): bool { if side.From? then fromIsFiat else !fromIsFiat }
    function Id(event: Event, attempt: nat): TransferId { TransferId(Source(), event, attempt) }
    /** The same swap over accounts without the flag. */
    function Unflagged(): Ctx { this.(capped := {}) }
    function Flagged(accounts: set<nat>): Ctx { this.(capped := accounts) }
    predicate Resolves(code: nat, side: Side) { (code, side) in accounts }
    predicate WalletsFound(spec: LegSpec) {
      LegRules(spec, (spec.fromRole, spec.side) in wallets, (spec.toRole, spec.side) in wallets)
    }
  }

  // ── Swap rows ──

  datatype LegRow = LegRow(legSeq: nat, attempt: nat, status: LegStatus)
  datatype SwapStatus = Processing | Success
  datatype Stage = SellStage | SettleStage | BuyStage | FeeStage | UnknownStage
  datatype Audit =
    | SwapCreated
    | LegPosted(leg: nat, attempt: nat)
    | LegRetried(leg: nat, attempt: nat)
    | LegStuck(leg: nat, attempt: nat)
    | LegResumed(leg: nat, attempt: nat)
    | SwapSucceeded

  datatype Swap = Swap(
    status: SwapStatus, stage: Option<Stage>, needsReview: bool, rows: seq<LegRow>, audits: seq<Audit>)

  function StageOf(leg: nat): Stage {
    if leg == 1 then SellStage else if leg == 2 then SettleStage
    else if leg == 3 then BuyStage else if leg == 4 then FeeStage else UnknownStage
  }

  /** Index of the leg's row with the highest attempt, or -1. */
  function Active(rows: seq<LegRow>, leg: nat): (i: int)
    ensures -1 <= i < |rows|
    ensures i >= 0 ==> rows[i].legSeq == leg
  {
    if rows == [] then -1
    else
      var n := |rows| - 1;
      var best := Active(rows[..n], leg);
      if rows[n].legSeq == leg && (best == -1 || rows[n].attempt > rows[best].attempt) then n else best
  }

  predicate ActiveIs(rows: seq<LegRow>, leg: nat, s: LegStatus) {
    Active(rows, leg) >= 0 && rows[Active(rows, leg)].status == s
  }

  /** Lowest leg, among the legs of the first `n` rows, whose active row is not clear. */
  function LowestOpen(rows: seq<LegRow>, n: nat): Option<nat>
    requires n <= |rows|
  {
    if n == 0 then None
    else
      var best, leg := LowestOpen(rows, n - 1), rows[n - 1].legSeq;
      if !ActiveIs(rows, leg, Clear) && (best.None? || leg < best.value) then Some(leg) else best
  }

  /** Some leg of the first `n` rows awaits review. */
  predicate AnyNeedsReview(rows: seq<LegRow>, n: nat)
    requires n <= |rows|
  {
    n > 0 && (AnyNeedsReview(rows, n - 1) || ActiveIs(rows, rows[n - 1].legSeq, NeedsReview))
  }

  function Recompute(s: Swap): Swap {
    var open := LowestOpen(s.rows, |s.rows|);
    s.(stage := if open.Some? then Some(StageOf(open.value)) else None,
       needsReview := AnyNeedsReview(s.rows, |s.rows|))
  }

  // ── Ledger side of a leg ──

  /** A batch of ledger calls: whether all succeeded, and the ledger they leave behind. */
  datatype TbOut = TbOut(ok: bool, tb: Tb)

  function InitiatePending(ctx: Ctx, spec: LegSpec, entries: seq<Entry>, attempt: nat, tb: Tb): TbOut {
    if entries == [] || ctx.Amount(spec.amount) == 0 then TbOut(true, tb)
    else
      var e := entries[0];
      if !ctx.Resolves(e.debitCode, spec.side) || !ctx.Resolves(e.creditCode, spec.side) then TbOut(false, tb)
      else
        match ExecutePending(tb, ctx.capped, ctx.Id(e.event, attempt), ctx.accounts[(e.debitCode, spec.side)],
                             ctx.accounts[(e.creditCode, spec.side)], ctx.Amount(spec.amount), ctx.LedgerOf(spec.side))
        case Ok(tb') => InitiatePending(ctx, spec, entries[1..], attempt, tb')
        case Err(_) => TbOut(false, tb)
  }

  function ResolveLeg(ctx: Ctx, spec: LegSpec, entries: seq<Entry>, attempt: nat, tb: Tb, outcome: Phase): TbOut {
    if entries == [] || ctx.Amount(spec.amount) == 0 then TbOut(true, tb)
    else
      match Resolve(tb, ctx.Id(entries[0].event, attempt), ctx.Amount(spec.amount), outcome)
      case Ok(tb') => ResolveLeg(ctx, spec, entries[1..], attempt, tb', outcome)
      case Err(_) => TbOut(false, tb)
  }

  // ── The workflow ──

  datatype Outcome = Outcome(ok: bool, swap: Swap, tb: Tb)

  /** A thrown step: the database keeps `before`, the ledger keeps what it was sent. */
  function Throw(before: Swap, tb: Tb): Outcome { Outcome(false, before, tb) }

  /** Finds the wallets, books and starts an attempt; `audits` is what the caller records once that
      succeeded. */
  function CreateAndStart(ctx: Ctx, s: Swap, tb: Tb, leg: nat, attempt: nat, audits: seq<Audit>): Outcome
    requires 1 <= leg <= LEGS
  {
    var spec := ctx.Spec(leg);
    var pend := InitiatePending(ctx, spec, spec.entries, attempt, tb);
    var next := Transition(ctx.IsFiat(spec.side), Created, if ctx.StartsFiat(spec.side) then Submit else Sign);
    if !ctx.WalletsFound(spec) then Throw(s, tb)
    else if !pend.ok || next.None? then Throw(s, pend.tb)
    else
      var s1 := s.(rows := s.rows + [LegRow(leg, attempt, next.value)], audits := s.audits + audits);
      Outcome(true, Recompute(s1), pend.tb)
  }

  function OnLegCleared(ctx: Ctx, s: Swap, tb: Tb, leg: nat, attempt: nat): Outcome
    requires 1 <= leg <= LEGS
  {
    AfterPost(ctx, s, ResolveLeg(ctx, ctx.Spec(leg), ctx.Spec(leg).entries, attempt, tb, Posted), leg, attempt)
  }

  /** Once the leg is posted: finish the swap, or start the next leg. */
  function AfterPost(ctx: Ctx, s: Swap, post: TbOut, leg: nat, attempt: nat): Outcome
    requires 1 <= leg <= LEGS
  {
    if !post.ok then Throw(s, post.tb)
    else
      var s1 := s.(audits := s.audits + [LegPosted(leg, attempt)]);
      if leg == LEGS then
        Outcome(true, Recompute(s1.(status := Success, audits := s1.audits + [SwapSucceeded])), post.tb)
      else
        CreateAndStart(ctx, s1, post.tb, leg + 1, 1, [])
  }

  function OnLegFailed(ctx: Ctx, s: Swap, tb: Tb, target: nat): Outcome
    requires target < |s.rows| && 1 <= s.rows[target].legSeq <= LEGS
  {
    var row := s.rows[target];
    SelfHeal(ctx, s, ResolveLeg(ctx, ctx.Spec(row.legSeq), ctx.Spec(row.legSeq).entries, row.attempt, tb, Voided),
        target)
  }

  /** Once the failed attempt is voided: try again, or park the leg after the last attempt. */
  function SelfHeal(ctx: Ctx, s: Swap, voided: TbOut, target: nat): Outcome
    requires target < |s.rows| && 1 <= s.rows[target].legSeq <= LEGS
  {
    var row := s.rows[target];
    if !voided.ok then Throw(s, voided.tb)
    else if row.attempt < MAX_LEG_ATTEMPTS then
      CreateAndStart(ctx, s, voided.tb, row.legSeq, row.attempt + 1, [LegRetried(row.legSeq, row.attempt)])
    else ParkLeg(s, voided.tb, target)
  }

  function ParkLeg(s: Swap, tb: Tb, target: nat): Outcome
    requires target < |s.rows|
  {
    var row := s.rows[target];
    var s1 := s.(rows := s.rows[target := row.(status := NeedsReview)],
                 audits := s.audits + [LegStuck(row.legSeq, row.attempt)]);
    Outcome(true, Recompute(s1), tb)
  }

  /** Some leg before `leg`, among the legs of the first `n` rows, is not clear. */
  predicate PriorOpen(rows: seq<LegRow>, n: nat, leg: nat)
    requires n <= |rows|
  {
    n > 0 && (PriorOpen(rows, n - 1, leg) || (rows[n - 1].legSeq < leg && !ActiveIs(rows, rows[n - 1].legSeq, Clear)))
  }

  /** What follows once the leg's row has moved to `next`. */
  function Follow(ctx: Ctx, s: Swap, tb: Tb, i: nat, next: LegStatus): Outcome
    requires i < |s.rows| && 1 <= s.rows[i].legSeq <= LEGS
  {
    var row := s.rows[i];
    var s1 := s.(rows := s.rows[i := row.(status := next)]);
    if next == Clear then OnLegCleared(ctx, s1, tb, row.legSeq, row.attempt)
    else if TerminalFail(next) then OnLegFailed(ctx, s1, tb, i)
    else Outcome(true, s1, tb)
  }

  function AdvanceBody(ctx: Ctx, s: Swap, tb: Tb, leg: nat, action: LegAction): Outcome {
    var i := Active(s.rows, leg);
    if s.status != Processing || i < 0 || PriorOpen(s.rows, |s.rows|, leg) || !(1 <= leg <= LEGS) then Throw(s, tb)
    else
      var row := s.rows[i];
      var spec := ctx.Spec(leg);
      var pend := if row.status == Created then InitiatePending(ctx, spec, spec.entries, 1, tb) else TbOut(true, tb);
      var next := Transition(ctx.IsFiat(spec.side), row.status, action);
      if !pend.ok || next.None? then Throw(s, pend.tb)
      else Follow(ctx, s, pend.tb, i, next.value)
  }

  function ResumeBody(ctx: Ctx, s: Swap, tb: Tb, leg: nat): Outcome {
    var i := Active(s.rows, leg);
    if s.status != Processing || i < 0 || s.rows[i].status != NeedsReview || !(1 <= leg <= LEGS) then Throw(s, tb)
    else
      CreateAndStart(ctx, s, tb, leg, s.rows[i].attempt + 1, [LegResumed(leg, s.rows[i].attempt + 1)])
  }

  datatype Op = Advance(leg: nat, action: LegAction) | Resume(leg: nat)

  /** One operator call, with the database rolled back when it throws. */
  function Step(ctx: Ctx, s: Swap, tb: Tb, op: Op): Outcome {
    var o := match op
      case Advance(leg, action) => AdvanceBody(ctx, s, tb, leg, action)
      case Resume(leg) => ResumeBody(ctx, s, tb, leg);
    if o.ok then o else o.(swap := s)
  }

  /** Creating a swap books leg 1; the swap exists only if that succeeds. */
  function ExecuteSwap(ctx: Ctx, tb: Tb): Outcome {
    CreateAndStart(ctx, Swap(Processing, None, false, [], [SwapCreated]), tb, 1, 1, [])
  }

  function Run(ctx: Ctx, s: Swap, tb: Tb, ops: seq<Op>): Outcome
    decreases |ops|
  {
    if ops == [] then Outcome(true, s, tb)
    else
      var o := Step(ctx, s, tb, ops[0]);
      Run(ctx, o.swap, o.tb, ops[1..])
  }
}
