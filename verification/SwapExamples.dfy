/** Concrete swaps that meet the exceptions: one between two crypto assets, one whose customer lacks
    an account, one whose creation is refused halfway, and one whose leg is cancelled. */
module SwapExamples {
  import opened Prelude
  import opened Ledger
  import opened SwapModel
  import opened SwapLedger
  import opened SwapInvariant
  import opened SwapSteps
  import opened SwapRuns
  import opened SwapDivergence
  import opened LedgerViews
  import opened Cover
  import opened SwapCover
  import opened SwapTheorems
  import opened SwapRecovery

  // ── Straight runs ──

  /** The calls that confirm a leg just started. */
  function Confirming(ctx: Ctx, leg: nat): seq<Op>
    requires 1 <= leg <= LEGS
  {
    if ctx.IsFiat(ctx.Spec(leg).side) then [Advance(leg, Confirm)]
    else [Advance(leg, Broadcast), Advance(leg, SeenInMempool), Advance(leg, Confirm)]
  }

  /** The calls that clear legs 1 to `n`. */
  function Straight(ctx: Ctx, n: nat): seq<Op>
    requires n <= LEGS
  {
    if n == 0 then [] else Straight(ctx, n - 1) + Confirming(ctx, n) + [Advance(n, Settle)]
  }

  lemma {:induction false} RunConcat(ctx: Ctx, s: Swap, tb: Tb, a: seq<Op>, b: seq<Op>)
    ensures Run(ctx, s, tb, a + b) == Run(ctx, Run(ctx, s, tb, a).swap, Run(ctx, s, tb, a).tb, b)
    decreases |a|
  {
    if a == [] {
      assert a + b == b;
    } else {
      assert (a + b)[1..] == a[1..] + b;
      RunConcat(ctx, Step(ctx, s, tb, a[0]).swap, Step(ctx, s, tb, a[0]).tb, a[1..], b);
    }
  }

  lemma RunOne(ctx: Ctx, s: Swap, tb: Tb, op: Op)
    ensures Run(ctx, s, tb, [op]).swap == Step(ctx, s, tb, op).swap
    ensures Run(ctx, s, tb, [op]).tb == Step(ctx, s, tb, op).tb
  {
    RunAppend(ctx, s, tb, [], op);
    assert [] + [op] == [op];
  }

  lemma Hop(ctx: Ctx, s: Swap, tb: Tb, action: LegAction, next: LegStatus) returns (z: Swap)
    requires Working(ctx, s, tb)
    requires Transition(ctx.IsFiat(ctx.Spec(Last(s.rows).legSeq).side), Last(s.rows).status, action) == Some(next)
    requires InFlight(ctx.IsFiat(ctx.Spec(Last(s.rows).legSeq).side), next)
    ensures z.rows == Restatus(s.rows, next) && Working(ctx, z, tb)
    ensures Step(ctx, s, tb, Advance(Last(s.rows).legSeq, action)) == Outcome(true, z, tb)
  {
    hide Inv, Transition, Restatus;
    WorkingRow(ctx, s, tb);
    WorkingFacts(ctx, s, tb);
    z := s.(rows := Restatus(s.rows, next));
    AdvanceCurrent(ctx, s, tb, action);
    HopKeepsInv(ctx, s, tb, next);
    RestatusLast(s.rows, next);
  }

  /** A leg just started can be confirmed. */
  lemma Confirms(ctx: Ctx, s: Swap, tb: Tb) returns (z: Swap)
    requires Working(ctx, s, tb) && Last(s.rows) == StartRow(ctx, Last(s.rows).legSeq, 1)
    ensures Run(ctx, s, tb, Confirming(ctx, Last(s.rows).legSeq)) == Outcome(true, z, tb)
    ensures z.rows == Restatus(s.rows, Confirmed) && Working(ctx, z, tb)
  {
    var leg := Last(s.rows).legSeq;
    if ctx.IsFiat(ctx.Spec(leg).side) {
      z := Hop(ctx, s, tb, Confirm, Confirmed);
      RunOne(ctx, s, tb, Advance(leg, Confirm));
    } else {
      z := ConfirmsCrypto(ctx, s, tb);
    }
  }

  lemma ConfirmsCrypto(ctx: Ctx, s: Swap, tb: Tb) returns (z: Swap)
    requires Working(ctx, s, tb) && Last(s.rows).status == Signing
    requires !ctx.IsFiat(ctx.Spec(Last(s.rows).legSeq).side)
    ensures Run(ctx, s, tb, Confirming(ctx, Last(s.rows).legSeq)) == Outcome(true, z, tb)
    ensures z.rows == Restatus(s.rows, Confirmed) && Working(ctx, z, tb)
  {
    hide Step, Run, Inv;
    WorkingRow(ctx, s, tb);
    var leg := Last(s.rows).legSeq;
    var a, b, c := Advance(leg, Broadcast), Advance(leg, SeenInMempool), Advance(leg, Confirm);
    var x := Hop(ctx, s, tb, Broadcast, Broadcasted);
    RestatusLast(s.rows, Broadcasted);
    var y := Hop(ctx, x, tb, SeenInMempool, LegStatus.Confirming);
    RestatusLast(x.rows, LegStatus.Confirming);
    z := Hop(ctx, y, tb, Confirm, Confirmed);
    RunThree(ctx, s, tb, a, b, c, x, y, z);
  }

  lemma RestatusLast(rows: seq<LegRow>, status: LegStatus)
    requires rows != []
    ensures Restatus(rows, status) != [] && Last(Restatus(rows, status)) == Last(rows).(status := status)
    ensures forall next :: Restatus(Restatus(rows, status), next) == Restatus(rows, next)
  {
  }

  lemma RunThree(ctx: Ctx, s: Swap, tb: Tb, a: Op, b: Op, c: Op, x: Swap, y: Swap, z: Swap)
    requires Step(ctx, s, tb, a) == Outcome(true, x, tb)
    requires Step(ctx, x, tb, b) == Outcome(true, y, tb)
    requires Step(ctx, y, tb, c) == Outcome(true, z, tb)
    ensures Run(ctx, s, tb, [a, b, c]) == Outcome(true, z, tb)
  {
    hide Step;
    RunAfter(ctx, y, tb, c, []);
    RunAfter(ctx, x, tb, b, [c]);
    RunAfter(ctx, s, tb, a, [b, c]);
    assert [c] + [] == [c] && [b] + [c] == [b, c] && [a] + [b, c] == [a, b, c];
  }

  lemma Chains(ctx: Ctx, s: Swap, tb: Tb) returns (o: Outcome)
    requires Working(ctx, s, tb) && Last(s.rows).status == Confirmed && CanStart(ctx, tb, Last(s.rows).legSeq + 1)
    ensures o == Run(ctx, s, tb, [Advance(Last(s.rows).legSeq, Settle)]) && o.ok
    ensures Working(ctx, o.swap, o.tb) && o.tb.accounts == tb.accounts
    ensures Last(o.swap.rows) == StartRow(ctx, Last(s.rows).legSeq + 1, 1)
  {
    var leg := Last(s.rows).legSeq;
    AdvanceCurrent(ctx, s, tb, Settle);
    ChainKeepsInv(ctx, s, tb);
    RunOne(ctx, s, tb, Advance(leg, Settle));
    o := Run(ctx, s, tb, [Advance(leg, Settle)]);
  }

  /** Confirming and settling the current leg carries a straight run one leg further. */
  lemma StraightStep(ctx: Ctx, e: Outcome, n: nat, s: Swap, tb: Tb) returns (o: Outcome)
    requires 1 <= n < LEGS && Run(ctx, e.swap, e.tb, Straight(ctx, n - 1)) == Outcome(true, s, tb)
    requires Working(ctx, s, tb) && Last(s.rows) == StartRow(ctx, n, 1) && CanStart(ctx, tb, n + 1)
    ensures o == Run(ctx, e.swap, e.tb, Straight(ctx, n)) && o.ok
    ensures Working(ctx, o.swap, o.tb) && o.tb.accounts == tb.accounts && Last(o.swap.rows) == StartRow(ctx, n + 1, 1)
  {
    hide Run, Inv, CanStart, Confirming;
    WorkingRow(ctx, s, tb);
    var z := Confirms(ctx, s, tb);
    RestatusLast(s.rows, Confirmed);
    o := Chains(ctx, z, tb);
    RunConcat(ctx, e.swap, e.tb, Straight(ctx, n - 1), Confirming(ctx, n));
    RunConcat(ctx, e.swap, e.tb, Straight(ctx, n - 1) + Confirming(ctx, n), [Advance(n, Settle)]);
  }

  /** A swap whose first `n + 1` legs can start, driven straight through the first `n`. */
  lemma {:induction false} StraightRun(ctx: Ctx, tb: Tb, n: nat) returns (o: Outcome)
    requires Plain(ctx) && tb.log == [] && n < LEGS && forall leg :: 1 <= leg <= n + 1 ==> CanStart(ctx, tb, leg)
    ensures ExecuteSwap(ctx, tb).ok && o.ok
    ensures o == Run(ctx, ExecuteSwap(ctx, tb).swap, ExecuteSwap(ctx, tb).tb, Straight(ctx, n))
    ensures Working(ctx, o.swap, o.tb) && o.tb.accounts == tb.accounts && Last(o.swap.rows) == StartRow(ctx, n + 1, 1)
  {
    hide CanStart, ExecuteSwap, Plain, RowsInv, LedgerInv;
    if n == 0 {
      ExecuteEstablishesInv(ctx, tb);
      o := ExecuteSwap(ctx, tb);
      StartedInFlight(ctx, 1);
    } else {
      var before := StraightRun(ctx, tb, n - 1);
      SameStart(ctx, tb, before.tb, n + 1);
      o := StraightStep(ctx, ExecuteSwap(ctx, tb), n, before.swap, before.tb);
    }
  }

  lemma StartedInFlight(ctx: Ctx, leg: nat)
    requires 1 <= leg <= LEGS
    ensures InFlight(ctx.IsFiat(ctx.Spec(leg).side), StartRow(ctx, leg, 1).status)
  {
  }

  /** The run that takes a swap into divergence: its legs 1 to `n` in turn, when leg `n + 1` cannot
      start. */
  lemma StraightIntoDivergence(ctx: Ctx, tb: Tb, n: nat)
    requires Proper(ctx) && tb.log == [] && 1 <= n < LEGS
    requires (forall leg :: 1 <= leg <= n ==> CanStart(ctx, tb, leg)) && !CanStart(ctx, tb, n + 1)
    ensures
      var e := ExecuteSwap(ctx, tb);
      var o := Run(ctx, e.swap, e.tb, Straight(ctx, n));
      && e.ok && Diverged(ctx, o.swap, o.tb)
      && Last(o.swap.rows) == LegRow(n, 1, Confirmed) && Reachable(ctx, o.swap, o.tb)
  {
    var e := ExecuteSwap(ctx, tb);
    var confirm, settle := Confirming(ctx, n), Advance(n, Settle);
    assert Straight(ctx, n) == Straight(ctx, n - 1) + confirm + [settle];
    var z, mid := StraightToConfirmed(ctx, tb, n);
    hide CanStart, Inv, Confirming, ExecuteSwap, Run, Step, LeftByStart, Expected, RowsReady, RowsInv, Straight;
    BlockedDiverges(ctx, z, mid, settle);
    RunConcat(ctx, e.swap, e.tb, Straight(ctx, n - 1) + confirm, [settle]);
    RunOne(ctx, z, mid, settle);
    RunIsOk(ctx, e.swap, e.tb, Straight(ctx, n));
    var o := Run(ctx, e.swap, e.tb, Straight(ctx, n));
    assert ReachedBy(ctx, tb, Straight(ctx, n), o.swap, o.tb);
  }

  lemma LastConfirmed(ctx: Ctx, s: Swap, tb: Tb, n: nat)
    requires Working(ctx, s, tb) && 1 <= n <= LEGS && Last(s.rows) == StartRow(ctx, n, 1)
    ensures s.rows != [] && Last(s.rows).legSeq == n && Last(Restatus(s.rows, Confirmed)) == LegRow(n, 1, Confirmed)
  {
  }

  lemma StraightToConfirmed(ctx: Ctx, tb: Tb, n: nat) returns (z: Swap, mid: Tb)
    requires Proper(ctx) && tb.log == [] && 1 <= n < LEGS
    requires (forall leg :: 1 <= leg <= n ==> CanStart(ctx, tb, leg)) && !CanStart(ctx, tb, n + 1)
    ensures
      var e := ExecuteSwap(ctx, tb);
      e.ok && Run(ctx, e.swap, e.tb, Straight(ctx, n - 1) + Confirming(ctx, n)) == Outcome(true, z, mid)
    ensures Inv(ctx, z, mid) && Last(z.rows) == LegRow(n, 1, Confirmed) && Blocked(ctx, z, mid, Advance(n, Settle))
  {
    var e := ExecuteSwap(ctx, tb);
    hide CanStart, Inv, Confirming, ExecuteSwap, Run, Step, Straight, InFlight, RowsInv, Plain;
    var before := StraightRun(ctx, tb, n - 1);
    LastConfirmed(ctx, before.swap, before.tb, n);
    z := Confirms(ctx, before.swap, before.tb);
    mid := before.tb;
    SameStart(ctx, tb, mid, n + 1);
    RunConcat(ctx, e.swap, e.tb, Straight(ctx, n - 1), Confirming(ctx, n));
  }

  lemma {:induction false} RunIsOk(ctx: Ctx, s: Swap, tb: Tb, ops: seq<Op>)
    ensures Run(ctx, s, tb, ops).ok
    decreases |ops|
  {
    if ops != [] {
      RunIsOk(ctx, Step(ctx, s, tb, ops[0]).swap, Step(ctx, s, tb, ops[0]).tb, ops[1..]);
    }
  }

  // ── Cancelling ──

  lemma CancelHop(ctx: Ctx, s: Swap, tb: Tb) returns (z: Swap)
    requires Working(ctx, s, tb) && !ctx.IsFiat(ctx.Spec(Last(s.rows).legSeq).side)
    requires Transition(false, Last(s.rows).status, Cancel) == Some(Cancelled)
    ensures z.rows == Restatus(s.rows, Cancelled) && Inv(ctx, z, tb)
    ensures Step(ctx, s, tb, Advance(Last(s.rows).legSeq, Cancel)) == Outcome(true, z, tb)
  {
    z := s.(rows := Restatus(s.rows, Cancelled));
    AdvanceCurrent(ctx, s, tb, Cancel);
    HopKeepsInv(ctx, s, tb, Cancelled);
  }

  lemma Cancels(ctx: Ctx, s: Swap, tb: Tb) returns (z: Swap)
    requires Working(ctx, s, tb) && !ctx.IsFiat(ctx.Spec(Last(s.rows).legSeq).side)
    requires Last(s.rows).status == Signing
    ensures z.rows == Restatus(s.rows, Cancelled) && Inv(ctx, z, tb)
    ensures Run(ctx, s, tb, [Advance(Last(s.rows).legSeq, Cancel)]) == Outcome(true, z, tb)
  {
    z := CancelHop(ctx, s, tb);
    hide Step, Inv, Working;
    RunAfter(ctx, s, tb, Advance(Last(s.rows).legSeq, Cancel), []);
    assert [Advance(Last(s.rows).legSeq, Cancel)] + [] == [Advance(Last(s.rows).legSeq, Cancel)];
  }

  /** Cancelling the first leg of any crypto swap strands it: the state is reachable, and no calls
      lead from it to success. */
  lemma CancelStrands(ctx: Ctx, tb: Tb)
    requires Configured(ctx, tb) && tb.log == [] && !ctx.IsFiat(ctx.Spec(1).side)
    ensures
      var e := ExecuteSwap(ctx, tb);
      var o := Run(ctx, e.swap, e.tb, [Advance(1, Cancel)]);
      && Reachable(ctx, o.swap, o.tb) && o.swap.rows == [LegRow(1, 1, Cancelled)]
      && o.tb == e.tb && !Recoverable(ctx, o.swap, o.tb)
  {
    ExecuteEstablishesInv(ctx, tb);
    var e := StraightRun(ctx, tb, 0);
    assert e == ExecuteSwap(ctx, tb) && Last(e.swap.rows).legSeq == 1;
    hide Step, ExecuteSwap, Inv, Configured, CanStart, Run;
    var z := Cancels(ctx, e.swap, e.tb);
    RecoverableIff(ctx, z, e.tb);
    assert ReachedBy(ctx, tb, [Advance(1, Cancel)], z, e.tb);
  }

  // ── Provisioned accounts ──

  const AED: nat := 1
  const USDT: nat := 2

  const CODES: set<nat> := {CLIENT_PAYABLE, CLIENT_ASSET, FIRM_ASSET, FIRM_OPS, FIRM_SET, FIRM_FEE}

  /** One account per ledger and code. */
  function AccountId(ledger: nat, code: nat): nat { ledger * 1000 + code }

  function OpenLedger(): Tb {
    Tb(map id | id in set ledger, code | ledger in {AED, USDT} && code in CODES :: AccountId(ledger, code)
         :: Account(id % 1000, id / 1000), [])
  }

  function AllWallets(): set<(Role, Side)> { set role: Role, side: Side :: (role, side) }

  /** 100 units against 90, of which 1 is the fee; every account and wallet is there. */
  function Trade(fromIsFiat: bool, toIsFiat: bool, fromLedger: nat, toLedger: nat): Ctx {
    Ctx("SWP-1", fromIsFiat, toIsFiat, 100, 90, 1, fromLedger, toLedger,
        map key | key in set code, side: Side | code in CODES :: (code, side)
          :: AccountId(if key.1.From? then fromLedger else toLedger, key.0),
        AllWallets(), {}, SwapLegPlan(fromIsFiat))
  }

  lemma PlanCodes(fromIsFiat: bool, leg: nat, e: Entry)
    requires 1 <= leg <= LEGS && e in SwapLegPlan(fromIsFiat)[leg - 1].entries
    ensures e.debitCode in CODES && e.creditCode in CODES && e.debitCode != e.creditCode
  {
  }

  lemma TradeAccountReady(ctx: Ctx, code: nat, side: Side)
    requires code in CODES && ctx.fromLedger in {AED, USDT} && ctx.toLedger in {AED, USDT}
    requires ctx.accounts == Trade(ctx.fromIsFiat, ctx.toIsFiat, ctx.fromLedger, ctx.toLedger).accounts
    ensures AccountReady(ctx, OpenLedger(), code, side)
    ensures ctx.accounts[(code, side)] == AccountId(ctx.LedgerOf(side), code)
  {
    var ledger := ctx.LedgerOf(side);
    assert ledger in {AED, USDT} && (code, side) in ctx.accounts;
    assert AccountId(ledger, code) in OpenLedger().accounts;
  }

  lemma TradeIsEquipped(fromIsFiat: bool, toIsFiat: bool, fromLedger: nat, toLedger: nat)
    requires fromLedger in {AED, USDT} && toLedger in {AED, USDT}
    ensures Equipped(Trade(fromIsFiat, toIsFiat, fromLedger, toLedger), OpenLedger())
  {
    var ctx := Trade(fromIsFiat, toIsFiat, fromLedger, toLedger);
    SwapLegPlanOk(fromIsFiat);
    forall leg | 1 <= leg <= LEGS ensures LegReady(ctx, OpenLedger(), leg) && ctx.WalletsFound(ctx.Spec(leg)) {
      forall e | e in ctx.Spec(leg).entries ensures EntryReady(ctx, OpenLedger(), e, ctx.Spec(leg).side) {
        PlanCodes(fromIsFiat, leg, e);
        TradeAccountReady(ctx, e.debitCode, ctx.Spec(leg).side);
        TradeAccountReady(ctx, e.creditCode, ctx.Spec(leg).side);
      }
    }
  }

  // ── Two chains of one coin ──

  /** USDT on one chain against USDT on another. */
  function TwoChains(): Ctx { Trade(false, false, USDT, USDT) }

  lemma TwoChainsStart()
    ensures Proper(TwoChains()) && !TwoChains().IsFiat(TwoChains().Spec(1).side) && OpenLedger().log == []
    ensures Equipped(TwoChains(), OpenLedger()) && !OneFiat(TwoChains())
    ensures CanStart(TwoChains(), OpenLedger(), 1) && !CanStart(TwoChains(), OpenLedger(), 2)
  {
    TradeIsEquipped(false, false, USDT, USDT);
    assert TwoChains().Spec(1).side == From && TwoChains().Spec(2).side == To;
    hide EntryReady, OpenLedger;
  }

  lemma StraightThroughOne(ctx: Ctx)
    requires !ctx.IsFiat(ctx.Spec(1).side)
    ensures Straight(ctx, 1)
         == [Advance(1, Broadcast), Advance(1, SeenInMempool), Advance(1, Confirm), Advance(1, Settle)]
  {
    assert Straight(ctx, 0) == [];
  }

  /** Created, broadcast, seen, confirmed; settling leg 1 then posts it and throws, for good. */
  lemma TwoChainsDiverge()
    ensures
      var ctx, tb := TwoChains(), OpenLedger();
      var e := ExecuteSwap(ctx, tb);
      var o := Run(ctx, e.swap, e.tb,
        [Advance(1, Broadcast), Advance(1, SeenInMempool), Advance(1, Confirm), Advance(1, Settle)]);
      && e.ok && Reachable(ctx, o.swap, o.tb) && Diverged(ctx, o.swap, o.tb)
      && Last(o.swap.rows) == LegRow(1, 1, Confirmed) && !Recoverable(ctx, e.swap, e.tb)
  {
    hide Equipped, CanStart, Run, ExecuteSwap, Straight, Reachable, Diverged, TwoChains, OpenLedger, OneFiat, Proper;
    var ctx, tb := TwoChains(), OpenLedger();
    TwoChainsStart();
    StraightThroughOne(ctx);
    EquippedSucceedsIffOneFiat(ctx, tb);
    StraightIntoDivergence(ctx, tb, 1);
  }

  // ── A customer without an account ──

  /** USDT against AED, for a customer without an AED account. */
  function NoPayable(): Ctx {
    var ctx := Trade(false, true, USDT, AED);
    ctx.(accounts := ctx.accounts - {(CLIENT_PAYABLE, To)})
  }

  lemma NoPayableAccount(code: nat, side: Side)
    requires code in CODES
    ensures AccountReady(NoPayable(), OpenLedger(), code, side) <==> side == From || code != CLIENT_PAYABLE
    ensures (code, side) in NoPayable().accounts ==>
      NoPayable().accounts[(code, side)] == AccountId(NoPayable().LedgerOf(side), code)
  {
    hide OpenLedger, CODES;
    TradeAccountReady(Trade(false, true, USDT, AED), code, side);
  }

  lemma NoPayableEntry(e: Entry, side: Side)
    requires e.debitCode in CODES && e.creditCode in CODES && e.debitCode != e.creditCode
    ensures EntryReady(NoPayable(), OpenLedger(), e, side)
       <==> side == From || (e.debitCode != CLIENT_PAYABLE && e.creditCode != CLIENT_PAYABLE)
  {
    hide OpenLedger, NoPayable, CODES;
    NoPayableAccount(e.debitCode, side);
    NoPayableAccount(e.creditCode, side);
  }

  lemma NoPayableReady(leg: nat, e: Entry)
    requires 1 <= leg <= 3 && e in NoPayable().Spec(leg).entries
    ensures EntryReady(NoPayable(), OpenLedger(), e, NoPayable().Spec(leg).side)
       <==> leg < 3 || e.event != SwapBuyClient
  {
    PlanCodes(false, leg, e);
    NoPayableEntry(e, NoPayable().Spec(leg).side);
    hide EntryReady, OpenLedger;
  }

  lemma NoPayableRest(leg: nat)
    requires 1 <= leg <= 3
    ensures
      var ctx := NoPayable();
      && Proper(ctx) && ctx.LegAmount(leg) > 0 && ctx.WalletsFound(ctx.Spec(leg))
      && ctx.StartsFiat(ctx.Spec(leg).side) == ctx.IsFiat(ctx.Spec(leg).side)
  {
    SwapLegPlanOk(false);
    hide PlanOk, CODES;
  }

  lemma BuyClientEntry() returns (e: Entry)
    ensures e in NoPayable().Spec(3).entries && e.event == SwapBuyClient
  {
    e := NoPayable().Spec(3).entries[1];
  }

  lemma NoPayableLegs()
    ensures Proper(NoPayable())
    ensures CanStart(NoPayable(), OpenLedger(), 1) && CanStart(NoPayable(), OpenLedger(), 2)
    ensures !CanStart(NoPayable(), OpenLedger(), 3)
  {
    hide NoPayable, OpenLedger, EntryReady, Proper;
    var ctx, tb := NoPayable(), OpenLedger();
    forall leg | 1 <= leg <= 3 ensures LegReady(ctx, tb, leg) <==> leg < 3 {
      NoPayableRest(leg);
      forall e | e in ctx.Spec(leg).entries
        ensures EntryReady(ctx, tb, e, ctx.Spec(leg).side) <==> leg < 3 || e.event != SwapBuyClient
      {
        NoPayableReady(leg, e);
      }
      if leg == 3 {
        var e := BuyClientEntry();
        assert !EntryReady(ctx, tb, e, ctx.Spec(leg).side);
      }
    }
    NoPayableRest(1);
    NoPayableRest(2);
  }

  lemma StraightThroughTwo(ctx: Ctx)
    requires !ctx.IsFiat(ctx.Spec(1).side) && ctx.IsFiat(ctx.Spec(2).side)
    ensures Straight(ctx, 2)
         == [Advance(1, Broadcast), Advance(1, SeenInMempool), Advance(1, Confirm), Advance(1, Settle),
             Advance(2, Confirm), Advance(2, Settle)]
  {
    StraightThroughOne(ctx);
    assert Straight(ctx, 2) == Straight(ctx, 1) + [Advance(2, Confirm)] + [Advance(2, Settle)];
  }

  /** Legs 1 and 2 go well; clearing leg 2 then posts it and throws, for good. */
  lemma NoPayableDiverges()
    ensures
      var ctx, tb := NoPayable(), OpenLedger();
      var e := ExecuteSwap(ctx, tb);
      var o := Run(ctx, e.swap, e.tb,
        [Advance(1, Broadcast), Advance(1, SeenInMempool), Advance(1, Confirm), Advance(1, Settle),
         Advance(2, Confirm), Advance(2, Settle)]);
      && e.ok && Reachable(ctx, o.swap, o.tb) && Diverged(ctx, o.swap, o.tb)
      && Last(o.swap.rows) == LegRow(2, 1, Confirmed)
  {
    var ctx, tb := NoPayable(), OpenLedger();
    NoPayableLegs();
    StraightThroughTwo(ctx);
    hide CanStart, Run, ExecuteSwap, Straight, Reachable, Diverged, NoPayable, OpenLedger;
    StraightIntoDivergence(ctx, tb, 2);
  }

  // ── A creation refused halfway ──

  /** The firm has no USDT operations account. */
  function NoOps(): Ctx {
    var ctx := Trade(false, true, USDT, AED);
    ctx.(accounts := ctx.accounts - {(FIRM_OPS, From)})
  }

  lemma NoOpsEntries() returns (a: Entry, b: Entry)
    ensures
      var ctx, tb := NoOps(), OpenLedger();
      && Plain(ctx) && ctx.LegAmount(1) == 100 && ctx.WalletsFound(ctx.Spec(1)) && ctx.Spec(1).entries == [a, b]
      && EntryReady(ctx, tb, a, ctx.Spec(1).side) && !EntryReady(ctx, tb, b, ctx.Spec(1).side)
      && TransferFor(ctx, ctx.Spec(1), a, 1, Pending).debit == AccountId(USDT, CLIENT_PAYABLE)
      && TransferFor(ctx, ctx.Spec(1), a, 1, Pending).credit != AccountId(USDT, CLIENT_PAYABLE)
  {
    hide OpenLedger, PlanOk;
    SwapLegPlanOk(false);
    a, b := NoOps().Spec(1).entries[0], NoOps().Spec(1).entries[1];
    TradeAccountReady(Trade(false, true, USDT, AED), CLIENT_PAYABLE, From);
    TradeAccountReady(Trade(false, true, USDT, AED), CLIENT_ASSET, From);
  }

  lemma LeftByFirst(ctx: Ctx, tb: Tb, a: Entry, b: Entry)
    requires ctx.LegAmount(1) > 0 && ctx.WalletsFound(ctx.Spec(1)) && ctx.Spec(1).entries == [a, b]
    requires EntryReady(ctx, tb, a, ctx.Spec(1).side) && !EntryReady(ctx, tb, b, ctx.Spec(1).side)
    ensures LeftByStart(ctx, tb, 1) == [TransferFor(ctx, ctx.Spec(1), a, 1, Pending)] && !CanStart(ctx, tb, 1)
  {
    var spec := ctx.Spec(1);
    assert b in spec.entries && [a, b][1..] == [b];
    assert Bookable(ctx, tb, spec, [b]) == [];
    assert Bookable(ctx, tb, spec, [a, b]) == [a] + [];
    assert Transfers(ctx, spec, [a], 1, Pending) == [TransferFor(ctx, spec, a, 1, Pending)];
  }

  /** The swap's row is rolled back, and the customer's amount stays locked under its number. */
  lemma RefusedCreationLocks()
    ensures
      var e := ExecuteSwap(NoOps(), OpenLedger());
      && !e.ok && e.swap.rows == [] && e.tb != OpenLedger()
      && DebitsPending(e.tb, AccountId(USDT, CLIENT_PAYABLE)) == 100
  {
    var ctx, tb := NoOps(), OpenLedger();
    assert tb.log == [];
    hide NoOps, OpenLedger, EntryReady, Plain, CreateAndStart;
    var a, b := NoOpsEntries();
    LeftByFirst(ctx, tb, a, b);
    ExecuteEstablishesInv(ctx, tb);
    SumOne(TransferFor(ctx, ctx.Spec(1), a, 1, Pending), DebitsIn(Pending, AccountId(USDT, CLIENT_PAYABLE)));
  }

  // ── A leg worth less than a minor unit ──

  /** A tenth of a cent of USDT against AED: the bought amount rounds to nothing. */
  function Dust(): Ctx { Trade(false, true, USDT, AED).(grossTo := 0, fee := 0) }

  lemma DustStarts(leg: nat)
    requires 1 <= leg <= LEGS
    ensures Plain(Dust()) && CanStart(Dust(), OpenLedger(), leg)
  {
    var full := Trade(false, true, USDT, AED);
    SwapLegPlanOk(false);
    TradeIsEquipped(false, true, USDT, AED);
    forall e | e in Dust().Spec(leg).entries && Dust().LegAmount(leg) > 0
      ensures EntryReady(Dust(), OpenLedger(), e, Dust().Spec(leg).side)
    {
      assert full.LegAmount(leg) > 0 && EntryReady(full, OpenLedger(), e, full.Spec(leg).side);
    }
    hide EntryReady, OpenLedger;
  }

  /** Legs 1 and 2 are cleared; then leg 2 is returned, and is tried again behind leg 3. */
  lemma DustIsReturned()
    ensures
      var ctx, tb := Dust(), OpenLedger();
      var e := ExecuteSwap(ctx, tb);
      var o := Run(ctx, e.swap, e.tb, Straight(ctx, 2));
      && e.ok && Inv(ctx, o.swap, o.tb) && Last(o.swap.rows) == StartRow(ctx, 3, 1)
      && Step(ctx, o.swap, o.tb, Advance(2, Return)).ok
      && !History(Step(ctx, o.swap, o.tb, Advance(2, Return)).swap.rows)
  {
    var ctx, tb := Dust(), OpenLedger();
    forall leg | 1 <= leg <= 3 ensures CanStart(ctx, tb, leg) {
      DustStarts(leg);
    }
    DustStarts(1);
    assert ctx.IsFiat(ctx.Spec(2).side) && ctx.LegAmount(2) == 0;
    hide CanStart, OpenLedger, Dust, Run, ExecuteSwap, Straight, AdvanceBody, History;
    var o := StraightRun(ctx, tb, 2);
    StartedThird(ctx, o.swap, o.tb);
    ClearReturnIff(ctx, o.swap, o.tb, 2);
  }

  lemma StartedThird(ctx: Ctx, s: Swap, tb: Tb)
    requires Working(ctx, s, tb) && Last(s.rows) == StartRow(ctx, 3, 1)
    ensures Inv(ctx, s, tb) && s.status == Processing
  {
  }

  // ── A cancelled leg ──

  /** USDT against AED, cancelled right after creation. */
  lemma CancelledIsReachable()
    ensures
      var ctx, tb := Trade(false, true, USDT, AED), OpenLedger();
      var e := ExecuteSwap(ctx, tb);
      var o := Run(ctx, e.swap, e.tb, [Advance(1, Cancel)]);
      && Configured(ctx, tb) && Reachable(ctx, o.swap, o.tb) && o.swap.rows == [LegRow(1, 1, Cancelled)]
      && DebitsPending(o.tb, AccountId(USDT, CLIENT_PAYABLE)) == 100 && !Recoverable(ctx, o.swap, o.tb)
  {
    var ctx, tb := Trade(false, true, USDT, AED), OpenLedger();
    TradeIsEquipped(false, true, USDT, AED);
    assert forall leg :: 1 <= leg <= LEGS ==> CanStart(ctx, tb, leg);
    CancelStrands(ctx, tb);
    FirstLegLocks(ctx, tb);
  }

  lemma TradeEntries(ctx: Ctx) returns (a: Entry, b: Entry)
    requires ctx == Trade(false, true, USDT, AED)
    ensures ctx.Spec(1).entries == [a, b] && ctx.LegAmount(1) == 100
    ensures EntryReady(ctx, OpenLedger(), a, ctx.Spec(1).side) && EntryReady(ctx, OpenLedger(), b, ctx.Spec(1).side)
    ensures TransferFor(ctx, ctx.Spec(1), a, 1, Pending).debit == AccountId(USDT, CLIENT_PAYABLE)
    ensures TransferFor(ctx, ctx.Spec(1), b, 1, Pending).debit == AccountId(USDT, FIRM_ASSET)
  {
    hide OpenLedger;
    a, b := ctx.Spec(1).entries[0], ctx.Spec(1).entries[1];
    TradeAccountReady(ctx, a.debitCode, From);
    TradeAccountReady(ctx, a.creditCode, From);
    TradeAccountReady(ctx, b.debitCode, From);
    TradeAccountReady(ctx, b.creditCode, From);
  }

  lemma LeftByBoth(ctx: Ctx, tb: Tb, a: Entry, b: Entry)
    requires CanStart(ctx, tb, 1) && ctx.LegAmount(1) > 0 && ctx.Spec(1).entries == [a, b]
    requires EntryReady(ctx, tb, a, ctx.Spec(1).side) && EntryReady(ctx, tb, b, ctx.Spec(1).side)
    ensures LeftByStart(ctx, tb, 1)
         == [TransferFor(ctx, ctx.Spec(1), a, 1, Pending)] + [TransferFor(ctx, ctx.Spec(1), b, 1, Pending)]
  {
    var spec := ctx.Spec(1);
    assert Bookable(ctx, tb, spec, spec.entries) == [a, b];
    assert [a, b][1..] == [b] && [b][1..] == [];
    assert Transfers(ctx, spec, [b], 1, Pending) == [TransferFor(ctx, spec, b, 1, Pending)];
  }

  lemma FirstLegLocks(ctx: Ctx, tb: Tb)
    requires ctx == Trade(false, true, USDT, AED) && tb == OpenLedger() && Configured(ctx, tb)
    ensures DebitsPending(ExecuteSwap(ctx, tb).tb, AccountId(USDT, CLIENT_PAYABLE)) == 100
  {
    assert tb.log == [] && CanStart(ctx, tb, 1);
    hide OpenLedger, EntryReady, Trade, CreateAndStart, CanStart, LeftByStart;
    var a, b := TradeEntries(ctx);
    LeftByBoth(ctx, tb, a, b);
    ExecuteEstablishesInv(ctx, tb);
    var t, u := TransferFor(ctx, ctx.Spec(1), a, 1, Pending), TransferFor(ctx, ctx.Spec(1), b, 1, Pending);
    var w := DebitsIn(Pending, AccountId(USDT, CLIENT_PAYABLE));
    SumConcat([t], [u], w);
    SumOne(t, w);
    SumOne(u, w);
  }

  // ── Two swaps for the money of one ──

  /** 100 USDT against AED, out of payables opened with the no-overdraft flag. */
  function Capped(swapNo: string): Ctx {
    Trade(false, true, USDT, AED)
      .(swapNo := swapNo, capped := {AccountId(USDT, CLIENT_PAYABLE), AccountId(AED, CLIENT_PAYABLE)})
  }

  /** The customer has deposited 100 USDT. */
  function Deposited(): Tb {
    OpenLedger().(log := [Transfer(TransferId(Source(DepositKind, "DEP-1"), DepositSuspenseToPayable, 0),
                                   AccountId(USDT, CLIENT_ASSET), AccountId(USDT, CLIENT_PAYABLE), 100, USDT,
                                   false, Posted)])
  }

  lemma FlagsAreOnPayables(no: string)
    ensures FlagsFit(Capped(no)) && Proper(Capped(no).Unflagged())
    ensures (CLIENT_PAYABLE, From) in Capped(no).accounts
    ensures Capped(no).accounts[(CLIENT_PAYABLE, From)] == AccountId(USDT, CLIENT_PAYABLE)
  {
    SwapLegPlanOk(false);
    hide PlanOk, SwapLegPlan;
  }

  lemma DepositedShare(no: string)
    ensures UniqueIds(Deposited().log) && View(Deposited(), Capped(no).Source()).log == []
  {
    var log := Deposited().log;
    assert log[..0] == [] && Mine(log[..0], Capped(no).Source()) == [];
  }

  lemma CappedStarts(no: string)
    ensures CanStart(Capped(no).Unflagged(), Deposited(), 1)
  {
    var full, ctx := Trade(false, true, USDT, AED), Capped(no).Unflagged();
    TradeIsEquipped(false, true, USDT, AED);
    assert LegReady(full, OpenLedger(), 1) && ctx.Spec(1) == full.Spec(1);
    forall e | e in ctx.Spec(1).entries ensures EntryReady(ctx, Deposited(), e, From) {
      assert EntryReady(full, OpenLedger(), e, From);
    }
    hide EntryReady, OpenLedger;
  }

  lemma HundredIsFree()
    ensures Free(Deposited(), AccountId(USDT, CLIENT_PAYABLE)) == 100
  {
    FreeIsSum(Deposited(), AccountId(USDT, CLIENT_PAYABLE));
    SumOne(Deposited().log[0], Adds(AccountId(USDT, CLIENT_PAYABLE)));
  }

  /** Either swap is created alone; after the first, the second is refused. */
  lemma SecondSwapIsRefused()
    ensures
      var x, y, tb := Capped("SWP-1"), Capped("SWP-2"), Deposited();
      && ExecuteSwap(x, tb).ok && ExecuteSwap(y, tb).ok
      && !ExecuteSwap(y, ExecuteSwap(x, tb).tb).ok
  {
    var x, y, tb := Capped("SWP-1"), Capped("SWP-2"), Deposited();
    assert x.fromAmount == y.fromAmount == 100 && x.capped == y.capped && x.swapNo != y.swapNo;
    assert AccountId(USDT, CLIENT_PAYABLE) in x.capped;
    hide Capped, Deposited, FlagsFit, Proper, CanStart, ExecuteSwap, Short, Free;
    FlagsAreOnPayables("SWP-1");
    FlagsAreOnPayables("SWP-2");
    DepositedShare("SWP-1");
    DepositedShare("SWP-2");
    CappedStarts("SWP-1");
    CappedStarts("SWP-2");
    HundredIsFree();
    CappedCreationIff(x, tb);
    CappedCreationIff(y, tb);
    SwapsCompeteForCover(x, y, tb);
  }
}
