/** What a swap does to balances: posted amounts are those of the clear legs, pending amounts
    those of the attempt in flight, and failed attempts leave no trace. */
module SwapFunds {
  import opened Prelude
  import opened Ledger
  import opened SwapModel
  import opened SwapLedger
  import opened SwapInvariant
  import opened SwapSteps
  import opened SwapRuns
  import opened SwapDivergence

  datatype Direction = Debit | Credit

  function Touched(ctx: Ctx, spec: LegSpec, e: Entry, dir: Direction): Option<nat> {
    var key := (if dir.Debit? then e.debitCode else e.creditCode, spec.side);
    if key in ctx.accounts then Some(ctx.accounts[key]) else None
  }

  /** What the entries together move on one side of an account. */
  function Moved(ctx: Ctx, spec: LegSpec, entries: seq<Entry>, account: nat, dir: Direction): int {
    if entries == [] then 0
    else (if Touched(ctx, spec, entries[0], dir) == Some(account) then ctx.Amount(spec.amount) else 0)
         + Moved(ctx, spec, entries[1..], account, dir)
  }

  function LegMoves(ctx: Ctx, leg: nat, account: nat, dir: Direction): int
    requires 1 <= leg <= LEGS
  {
    Moved(ctx, ctx.Spec(leg), ctx.Spec(leg).entries, account, dir)
  }

  function Weight(dir: Direction, phase: Phase, account: nat): Transfer -> int {
    if dir.Debit? then DebitsIn(phase, account) else CreditsIn(phase, account)
  }

  lemma {:induction false} BatchMoves(
      ctx: Ctx, spec: LegSpec, entries: seq<Entry>, attempt: nat, phase: Phase, w: Phase, account: nat, dir: Direction)
    requires ctx.Amount(spec.amount) > 0 ==> forall e :: e in entries ==>
      ctx.Resolves(e.debitCode, spec.side) && ctx.Resolves(e.creditCode, spec.side)
    ensures Sum(Transfers(ctx, spec, entries, attempt, phase), Weight(dir, w, account))
         == if phase == w then Moved(ctx, spec, entries, account, dir) else 0
  {
    if entries == [] {
    } else if ctx.Amount(spec.amount) == 0 {
      ZeroMoves(ctx, spec, entries, account, dir);
    } else {
      assert entries[0] in entries;
      var t := TransferFor(ctx, spec, entries[0], attempt, phase);
      BatchMoves(ctx, spec, entries[1..], attempt, phase, w, account, dir);
      SumConcat([t], Transfers(ctx, spec, entries[1..], attempt, phase), Weight(dir, w, account));
      SumOne(t, Weight(dir, w, account));
    }
  }

  lemma {:induction false} ZeroMoves(ctx: Ctx, spec: LegSpec, entries: seq<Entry>, account: nat, dir: Direction)
    requires ctx.Amount(spec.amount) == 0
    ensures Moved(ctx, spec, entries, account, dir) == 0
  {
    if entries != [] {
      ZeroMoves(ctx, spec, entries[1..], account, dir);
    }
  }

  /** Legs 1 to n together. */
  function LegsMove(ctx: Ctx, n: nat, account: nat, dir: Direction): int
    requires n <= LEGS
  {
    if n == 0 then 0 else LegsMove(ctx, n - 1, account, dir) + LegMoves(ctx, n, account, dir)
  }

  function ClearLegs(rows: seq<LegRow>): int
    requires rows != []
  {
    if Last(rows).status == Clear then Last(rows).legSeq else Last(rows).legSeq - 1
  }

  lemma RowMoves(ctx: Ctx, tb: Tb, r: LegRow, w: Phase, account: nat, dir: Direction)
    requires CanStart(ctx, tb, r.legSeq)
    ensures Sum(RowTransfers(ctx, tb, r), Weight(dir, w, account))
         == if PhaseOf(r.status) == w then LegMoves(ctx, r.legSeq, account, dir) else 0
  {
    BatchMoves(ctx, ctx.Spec(r.legSeq), ctx.Spec(r.legSeq).entries, r.attempt, PhaseOf(r.status), w, account, dir);
  }

  /** Before its last row, a history had cleared exactly the legs before that row's. */
  lemma ClearBefore(rows: seq<LegRow>)
    requires History(rows) && |rows| > 1
    ensures ClearLegs(Init(rows)) == Last(rows).legSeq - 1
  {
    assert Linked(Init(rows), Last(rows));
  }

  lemma LastMoves(ctx: Ctx, tb: Tb, rows: seq<LegRow>, w: Phase, account: nat, dir: Direction)
    requires RowsReady(ctx, tb, rows) && rows != [] && 1 <= Last(rows).legSeq <= LEGS
    ensures RowsReady(ctx, tb, Init(rows))
    ensures Sum(Expected(ctx, tb, rows), Weight(dir, w, account))
         == Sum(Expected(ctx, tb, Init(rows)), Weight(dir, w, account))
            + if PhaseOf(Last(rows).status) == w then LegMoves(ctx, Last(rows).legSeq, account, dir) else 0
  {
    RowMoves(ctx, tb, Last(rows), w, account, dir);
    SumConcat(Expected(ctx, tb, Init(rows)), RowTransfers(ctx, tb, Last(rows)), Weight(dir, w, account));
  }

  /** A history posts its clear legs, once each. */
  lemma {:induction false} HistoryPosts(ctx: Ctx, tb: Tb, rows: seq<LegRow>, account: nat, dir: Direction)
    requires RowsReady(ctx, tb, rows) && History(rows)
    ensures 0 <= ClearLegs(rows) <= LEGS
    ensures Sum(Expected(ctx, tb, rows), Weight(dir, Posted, account)) == LegsMove(ctx, ClearLegs(rows), account, dir)
  {
    hide RowsReady, Weight, LegMoves, LegsMove, CanStart;
    LastMoves(ctx, tb, rows, Posted, account, dir);
    LegsMoveLast(ctx, rows, account, dir);
    var isFirst := |rows| == 1;
    assert isFirst ==> Init(rows) == [];
    if !isFirst {
      ClearBefore(rows);
      HistoryPosts(ctx, tb, Init(rows), account, dir);
    }
  }

  lemma LegsMoveLast(ctx: Ctx, rows: seq<LegRow>, account: nat, dir: Direction)
    requires History(rows)
    ensures 0 <= ClearLegs(rows) <= LEGS && 1 <= Last(rows).legSeq <= LEGS
    ensures LegsMove(ctx, ClearLegs(rows), account, dir)
         == LegsMove(ctx, Last(rows).legSeq - 1, account, dir)
            + if Last(rows).status == Clear then LegMoves(ctx, Last(rows).legSeq, account, dir) else 0
    ensures |rows| == 1 ==> LegsMove(ctx, Last(rows).legSeq - 1, account, dir) == 0
  {
    hide LegMoves;
  }

  /** A history leaves pending the attempt in flight and nothing else. */
  lemma {:induction false} HistoryPends(ctx: Ctx, tb: Tb, rows: seq<LegRow>, account: nat, dir: Direction)
    requires RowsReady(ctx, tb, rows) && History(rows)
    ensures Sum(Expected(ctx, tb, rows), Weight(dir, Pending, account)) == InFlightMoves(ctx, rows, account, dir)
  {
    LastMoves(ctx, tb, rows, Pending, account, dir);
    hide RowsReady, Weight, LegMoves;
    if |rows| == 1 {
      assert Expected(ctx, tb, Init(rows)) == [];
    } else {
      assert Linked(Init(rows), Last(rows));
      HistoryPends(ctx, tb, Init(rows), account, dir);
    }
  }

  /** What the attempt in flight, if there is one, moves. */
  function InFlightMoves(ctx: Ctx, rows: seq<LegRow>, account: nat, dir: Direction): int
    requires rows != [] && 1 <= Last(rows).legSeq <= LEGS
  {
    if PhaseOf(Last(rows).status) == Pending then LegMoves(ctx, Last(rows).legSeq, account, dir) else 0
  }

  /** What a leg that could not start left pending. */
  function LeftMoves(ctx: Ctx, tb: Tb, leg: nat, account: nat, dir: Direction): int
    requires 1 <= leg <= LEGS
  {
    var spec := ctx.Spec(leg);
    if ctx.WalletsFound(spec) then Moved(ctx, spec, Bookable(ctx, tb, spec, spec.entries), account, dir) else 0
  }

  lemma LeftIsPending(ctx: Ctx, tb: Tb, leg: nat, w: Phase, account: nat, dir: Direction)
    requires 1 <= leg <= LEGS
    ensures Sum(LeftByStart(ctx, tb, leg), Weight(dir, w, account))
         == if w == Pending then LeftMoves(ctx, tb, leg, account, dir) else 0
  {
    var spec := ctx.Spec(leg);
    BatchMoves(ctx, spec, Bookable(ctx, tb, spec, spec.entries), 1, Pending, w, account, dir);
  }

  /** Main theorem: in every state that meets the invariant, each account carries exactly the
      clear legs as posted and exactly the attempt in flight as pending. */
  lemma BalancesFollowLegs(ctx: Ctx, s: Swap, tb: Tb, account: nat, dir: Direction)
    requires Inv(ctx, s, tb)
    ensures 0 <= ClearLegs(s.rows) <= LEGS
    ensures Sum(tb.log, Weight(dir, Posted, account)) == LegsMove(ctx, ClearLegs(s.rows), account, dir)
    ensures Sum(tb.log, Weight(dir, Pending, account)) == InFlightMoves(ctx, s.rows, account, dir)
  {
    HistoryPosts(ctx, tb, s.rows, account, dir);
    HistoryPends(ctx, tb, s.rows, account, dir);
  }

  /** And of a swap that diverged: one leg more than the rows say as posted, and what its successor
      left behind as pending. */
  lemma DivergedBalances(ctx: Ctx, s: Swap, tb: Tb, account: nat, dir: Direction)
    requires Diverged(ctx, s, tb)
    ensures Sum(tb.log, Weight(dir, Posted, account)) == LegsMove(ctx, Last(s.rows).legSeq, account, dir)
    ensures Sum(tb.log, Weight(dir, Pending, account)) == LeftMoves(ctx, tb, Last(s.rows).legSeq + 1, account, dir)
  {
    var rows, leg := Restatus(s.rows, Clear), Last(s.rows).legSeq + 1;
    HistoryRestatus(s.rows, Clear);
    HistoryPosts(ctx, tb, rows, account, dir);
    HistoryPends(ctx, tb, rows, account, dir);
    LeftIsPending(ctx, tb, leg, Posted, account, dir);
    LeftIsPending(ctx, tb, leg, Pending, account, dir);
    SumConcat(Expected(ctx, tb, rows), LeftByStart(ctx, tb, leg), Weight(dir, Posted, account));
    SumConcat(Expected(ctx, tb, rows), LeftByStart(ctx, tb, leg), Weight(dir, Pending, account));
  }

  // ── The effect of a finished swap ──

  /** Net credit posted to the account of a code on one side of the swap. */
  function Net(ctx: Ctx, tb: Tb, code: nat, side: Side): int
    requires ctx.Resolves(code, side)
  {
    CreditsPosted(tb, ctx.accounts[(code, side)]) - DebitsPosted(tb, ctx.accounts[(code, side)])
  }

  /** What each code gains over a whole swap, as both plans intend it. */
  function Intended(ctx: Ctx, code: nat, side: Side): int {
    if side.From? then
      if code == CLIENT_PAYABLE || code == FIRM_ASSET then 0 - ctx.fromAmount
      else if code == CLIENT_ASSET || code == FIRM_OPS then ctx.fromAmount
      else 0
    else
      if code == CLIENT_PAYABLE || code == FIRM_ASSET then ctx.grossTo - ctx.fee
      else if code == CLIENT_ASSET then ctx.fee - ctx.grossTo
      else if code == FIRM_OPS then 0 - ctx.grossTo
      else if code == FIRM_FEE then ctx.fee
      else 0
  }

  /** The registry's accounts are told apart by code and ledger. */
  predicate Registered(ctx: Ctx, tb: Tb) {
    && ctx.fromLedger != ctx.toLedger
    && forall key :: key in ctx.accounts ==>
         ctx.accounts[key] in tb.accounts && tb.accounts[ctx.accounts[key]] == Account(key.0, ctx.LedgerOf(key.1))
  }

  /** Net movement of an entry on a code. */
  function CodeShift(spec: LegSpec, e: Entry, code: nat, side: Side): int {
    if spec.side != side then 0
    else (if e.creditCode == code then 1 else 0) - (if e.debitCode == code then 1 else 0)
  }

  function CodeShifts(spec: LegSpec, entries: seq<Entry>, code: nat, side: Side): int {
    if entries == [] then 0 else CodeShift(spec, entries[0], code, side) + CodeShifts(spec, entries[1..], code, side)
  }

  lemma {:induction false} MovesAreShifts(ctx: Ctx, tb: Tb, spec: LegSpec, entries: seq<Entry>, code: nat, side: Side)
    requires Registered(ctx, tb) && ctx.Resolves(code, side)
    requires ctx.Amount(spec.amount) > 0 ==> forall e :: e in entries ==>
      ctx.Resolves(e.debitCode, spec.side) && ctx.Resolves(e.creditCode, spec.side)
    ensures
      var a := ctx.accounts[(code, side)];
      Moved(ctx, spec, entries, a, Credit) - Moved(ctx, spec, entries, a, Debit)
      == CodeShifts(spec, entries, code, side) * ctx.Amount(spec.amount)
  {
    var a, m := ctx.accounts[(code, side)], ctx.Amount(spec.amount);
    if m == 0 {
      ZeroMoves(ctx, spec, entries, a, Credit);
      ZeroMoves(ctx, spec, entries, a, Debit);
    } else if entries != [] {
      assert entries[0] in entries;
      MovesAreShifts(ctx, tb, spec, entries[1..], code, side);
      OneShift(ctx, tb, spec, entries[0], code, side);
      Spread(CodeShift(spec, entries[0], code, side), CodeShifts(spec, entries[1..], code, side), m);
    }
  }

  lemma Spread(x: int, y: int, m: int)
    ensures (x + y) * m == x * m + y * m
  {
  }

  lemma OneShift(ctx: Ctx, tb: Tb, spec: LegSpec, e: Entry, code: nat, side: Side)
    requires Registered(ctx, tb) && ctx.Resolves(code, side)
    requires ctx.Resolves(e.debitCode, spec.side) && ctx.Resolves(e.creditCode, spec.side)
    ensures
      var a, m := ctx.accounts[(code, side)], ctx.Amount(spec.amount);
      (if Touched(ctx, spec, e, Credit) == Some(a) then m else 0)
      - (if Touched(ctx, spec, e, Debit) == Some(a) then m else 0)
      == CodeShift(spec, e, code, side) * m
  {
    SameAccount(ctx, tb, e.creditCode, spec.side, code, side);
    SameAccount(ctx, tb, e.debitCode, spec.side, code, side);
  }

  lemma SameAccount(ctx: Ctx, tb: Tb, c: nat, s: Side, c': nat, s': Side)
    requires Registered(ctx, tb) && ctx.Resolves(c, s) && ctx.Resolves(c', s')
    ensures ctx.accounts[(c, s)] == ctx.accounts[(c', s')] <==> c == c' && s == s'
  {
    assert tb.accounts[ctx.accounts[(c, s)]] == Account(c, ctx.LedgerOf(s)) by { assert (c, s) in ctx.accounts; }
    assert tb.accounts[ctx.accounts[(c', s')]] == Account(c', ctx.LedgerOf(s')) by { assert (c', s') in ctx.accounts; }
  }

  function LegShift(plan: Plan, leg: nat, code: nat, side: Side): int
    requires 1 <= leg <= LEGS
  {
    CodeShifts(plan[leg - 1], plan[leg - 1].entries, code, side)
  }

  lemma {:induction false} ShiftsOfTwo(spec: LegSpec, code: nat, side: Side)
    requires |spec.entries| == 2
    ensures CodeShifts(spec, spec.entries, code, side)
         == CodeShift(spec, spec.entries[0], code, side) + CodeShift(spec, spec.entries[1], code, side)
  {
    var e := spec.entries;
    assert e[1..] == [e[1]] && e[1..][1..] == [];
    assert CodeShifts(spec, e[1..], code, side) == CodeShift(spec, e[1], code, side);
  }

  lemma {:induction false} ShiftsOfOne(spec: LegSpec, code: nat, side: Side)
    requires |spec.entries| == 1
    ensures CodeShifts(spec, spec.entries, code, side) == CodeShift(spec, spec.entries[0], code, side)
  {
    assert spec.entries[1..] == [];
  }

  /** The four legs of either plan add up to the intended effect. */
  lemma PlanAddsUp(ctx: Ctx, code: nat, side: Side)
    requires ctx.plan == SwapLegPlan(ctx.fromIsFiat)
    ensures
      LegShift(ctx.plan, 1, code, side) * ctx.LegAmount(1) + LegShift(ctx.plan, 2, code, side) * ctx.LegAmount(2)
      + LegShift(ctx.plan, 3, code, side) * ctx.LegAmount(3) + LegShift(ctx.plan, 4, code, side) * ctx.LegAmount(4)
      == Intended(ctx, code, side)
  {
    ShiftsOfTwo(ctx.plan[0], code, side);
    ShiftsOfOne(ctx.plan[1], code, side);
    ShiftsOfTwo(ctx.plan[2], code, side);
    ShiftsOfTwo(ctx.plan[3], code, side);
  }

  lemma LegNet(ctx: Ctx, tb: Tb, leg: nat, code: nat, side: Side)
    requires CanStart(ctx, tb, leg) && Registered(ctx, tb) && ctx.Resolves(code, side)
    ensures
      var a := ctx.accounts[(code, side)];
      LegMoves(ctx, leg, a, Credit) - LegMoves(ctx, leg, a, Debit)
          == LegShift(ctx.plan, leg, code, side) * ctx.LegAmount(leg)
  {
    MovesAreShifts(ctx, tb, ctx.Spec(leg), ctx.Spec(leg).entries, code, side);
  }

  lemma LegsMoveAll(ctx: Ctx, account: nat, dir: Direction)
    ensures LegsMove(ctx, LEGS, account, dir)
         == LegMoves(ctx, 1, account, dir) + LegMoves(ctx, 2, account, dir)
            + LegMoves(ctx, 3, account, dir) + LegMoves(ctx, 4, account, dir)
  {
    assert LegsMove(ctx, 0, account, dir) == 0;
    assert LegsMove(ctx, 1, account, dir) == LegsMove(ctx, 0, account, dir) + LegMoves(ctx, 1, account, dir);
    assert LegsMove(ctx, 2, account, dir) == LegsMove(ctx, 1, account, dir) + LegMoves(ctx, 2, account, dir);
    assert LegsMove(ctx, 3, account, dir) == LegsMove(ctx, 2, account, dir) + LegMoves(ctx, 3, account, dir);
  }

  lemma SuccessAgrees(ctx: Ctx, s: Swap, tb: Tb)
    requires Sound(ctx, s, tb) && s.status == Success
    ensures Inv(ctx, s, tb) && ClearLegs(s.rows) == LEGS
    ensures forall leg :: 1 <= leg <= LEGS ==> CanStart(ctx, tb, leg)
  {
    SuccessStartedAll(ctx, s, tb);
  }

  lemma SuccessBalances(ctx: Ctx, s: Swap, tb: Tb, account: nat, dir: Direction)
    requires Sound(ctx, s, tb) && s.status == Success
    ensures Sum(tb.log, Weight(dir, Posted, account))
         == LegMoves(ctx, 1, account, dir) + LegMoves(ctx, 2, account, dir)
            + LegMoves(ctx, 3, account, dir) + LegMoves(ctx, 4, account, dir)
    ensures Sum(tb.log, Weight(dir, Pending, account)) == 0
  {
    hide Sound, CanStart, LegMoves, Weight;
    SuccessAgrees(ctx, s, tb);
    BalancesFollowLegs(ctx, s, tb, account, dir);
    LegsMoveAll(ctx, account, dir);
  }

  /** A successful swap has moved, on every account, exactly what was quoted: the customer gave
      the from amount and got gross minus fee, the firm's pools mirror it, the fee account got
      the fee, and the settlement account is empty. However many attempts it took. */
  lemma SuccessMovesExactly(ctx: Ctx, s: Swap, tb: Tb, code: nat, side: Side)
    requires Sound(ctx, s, tb) && s.status == Success && ctx.plan == SwapLegPlan(ctx.fromIsFiat)
    requires Registered(ctx, tb) && ctx.Resolves(code, side)
    ensures Net(ctx, tb, code, side) == Intended(ctx, code, side)
    ensures DebitsPending(tb, ctx.accounts[(code, side)]) == 0
  {
    var a := ctx.accounts[(code, side)];
    hide Sound, CanStart, LegMoves, LegShift, Intended, Registered, Inv, SwapLegPlan;
    SuccessBalances(ctx, s, tb, a, Debit);
    SuccessBalances(ctx, s, tb, a, Credit);
    SuccessAgrees(ctx, s, tb);
    LegNet(ctx, tb, 1, code, side);
    LegNet(ctx, tb, 2, code, side);
    LegNet(ctx, tb, 3, code, side);
    LegNet(ctx, tb, 4, code, side);
    PlanAddsUp(ctx, code, side);
  }

  // ── Along the way ──

  /** Where the money is after `n` legs have cleared: between the first two legs of a sale out of a
      virtual account the proceeds sit on the settlement account, between the second and the third
      leg of the other kind of swap the purchase does. */
  function SoFar(ctx: Ctx, n: nat, code: nat, side: Side): int {
    var sold, bought, fee :=
      if n >= 1 then ctx.fromAmount else 0, if n >= 3 then ctx.grossTo else 0, if n >= 4 then ctx.fee else 0;
    if side.From? then
      if code == CLIENT_PAYABLE || code == FIRM_ASSET then 0 - sold
      else if code == CLIENT_ASSET then sold
      else if code == FIRM_SET then if ctx.fromIsFiat && n == 1 then sold else 0
      else if code == FIRM_OPS then if ctx.fromIsFiat && n == 1 then 0 else sold
      else 0
    else
      if code == CLIENT_PAYABLE || code == FIRM_ASSET then bought - fee
      else if code == CLIENT_ASSET then fee - bought
      else if code == FIRM_SET then if !ctx.fromIsFiat && n == 2 then ctx.grossTo else 0
      else if code == FIRM_OPS then if !ctx.fromIsFiat && n == 2 then 0 - ctx.grossTo else 0 - bought
      else if code == FIRM_FEE then fee
      else 0
  }

  /** Every leg up to the current one could start. */
  lemma ReachedCanStart(ctx: Ctx, s: Swap, tb: Tb, leg: nat)
    requires Inv(ctx, s, tb) && 1 <= leg <= Last(s.rows).legSeq
    ensures CanStart(ctx, tb, leg)
  {
    ActiveFacts(s.rows, leg);
    var i := Active(s.rows, leg);
    assert s.rows[i].legSeq == leg;
  }

  lemma LegMovesOn(ctx: Ctx, leg: nat, code: nat, side: Side)
    requires ctx.plan == SwapLegPlan(ctx.fromIsFiat) && 1 <= leg <= LEGS
    ensures LegShift(ctx.plan, leg, code, side) * ctx.LegAmount(leg)
         == SoFar(ctx, leg, code, side) - SoFar(ctx, leg - 1, code, side)
  {
    if leg == 2 {
      ShiftsOfOne(ctx.plan[1], code, side);
    } else {
      ShiftsOfTwo(ctx.plan[leg - 1], code, side);
    }
  }

  lemma {:induction false} LegsMoveOn(ctx: Ctx, s: Swap, tb: Tb, n: nat, code: nat, side: Side)
    requires Inv(ctx, s, tb) && ctx.plan == SwapLegPlan(ctx.fromIsFiat)
    requires Registered(ctx, tb) && ctx.Resolves(code, side) && History(s.rows) && n <= Last(s.rows).legSeq
    ensures LegsMove(ctx, n, ctx.accounts[(code, side)], Credit) - LegsMove(ctx, n, ctx.accounts[(code, side)], Debit)
         == SoFar(ctx, n, code, side)
  {
    hide Inv, CanStart, LegMoves, LegShift, Registered, SwapLegPlan, History;
    if n > 0 {
      LegsMoveOn(ctx, s, tb, n - 1, code, side);
      ReachedCanStart(ctx, s, tb, n);
      LegNet(ctx, tb, n, code, side);
      LegMovesOn(ctx, n, code, side);
      hide SoFar;
    }
  }

  /** At any time the posted net of an account is what the cleared legs have moved: money leaves the
      customer with leg 1, reaches it with leg 3, and is with the firm in between. */
  lemma MoneyFollowsLegs(ctx: Ctx, s: Swap, tb: Tb, code: nat, side: Side)
    requires Inv(ctx, s, tb) && ctx.plan == SwapLegPlan(ctx.fromIsFiat)
    requires Registered(ctx, tb) && ctx.Resolves(code, side)
    ensures
      var last := Last(s.rows);
      && last.legSeq >= 1
      && Net(ctx, tb, code, side)
         == SoFar(ctx, if last.status == Clear then last.legSeq else last.legSeq - 1, code, side)
  {
    hide LedgerInv, LegsMove, SoFar, Registered, SwapLegPlan, Summary, LastOk;
    var a, n := ctx.accounts[(code, side)], ClearLegs(s.rows);
    LegsMoveOn(ctx, s, tb, n, code, side);
    BalancesFollowLegs(ctx, s, tb, a, Debit);
    BalancesFollowLegs(ctx, s, tb, a, Credit);
  }
}
