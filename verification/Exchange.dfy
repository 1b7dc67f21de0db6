/** The whole back office on one ledger: swaps, withdrawals and every other document, in any order.
    To the swaps a withdrawal's call is a run of other documents' requests, and the other way round;
    so each side's theorems hold of the whole, and its totals and identities add up over both. */
module Exchange {
  import opened Prelude
  import opened Ledger
  import opened LedgerViews
  import opened ChartOfAccounts
  import opened GapLaws
  import opened Cover
  import opened Requests
  import opened SwapDivergence
  import opened SwapFunds
  import SwapModel
  import SwapInvariant
  import SwapRequests
  import SwapTotals
  import S = SwapSystem
  import WithdrawModel
  import WithdrawInvariant
  import WithdrawRequests
  import W = WithdrawSystem

  /** The tables, the shared ledger, and its flagged accounts. */
  datatype Office = Office(swaps: seq<S.Booked>, rows: seq<WithdrawModel.Withdrawal>, tb: Tb, capped: set<nat>)

  /** A call of one of the two workflows, or a ledger request of another kind of document. */
  datatype Call = OfSwap(s: S.Call) | OfWithdrawal(w: W.Call) | Elsewhere(r: Request)

  function Swaps(x: Office): S.System { S.System(x.swaps, x.tb, x.capped) }

  function Withdrawals(x: Office): W.System { W.System(x.rows, x.tb, x.capped) }

  function Perform(x: Office, c: Call): Office {
    match c
    case OfSwap(s) =>
      var after := S.Perform(Swaps(x), s);
      x.(swaps := after.swaps, tb := after.tb)
    case OfWithdrawal(w) =>
      var after := W.Perform(Withdrawals(x), w);
      x.(rows := after.rows, tb := after.tb)
    case Elsewhere(r) => x.(tb := ServeCapped(x.tb, x.capped, r))
  }

  function PerformAll(x: Office, calls: seq<Call>): Office
    decreases |calls|
  {
    if calls == [] then x else PerformAll(Perform(x, calls[0]), calls[1..])
  }

  /** What either workflow asks of its callers; other documents are neither swaps nor withdrawals. */
  predicate Regular(x: Office, c: Call) {
    match c
    case OfSwap(s) => (s.OpenSwap? || s.OnSwap?) && S.Regular(Swaps(x), s)
    case OfWithdrawal(w) => (w.Request? || w.OnWithdrawal?) && W.Regular(Withdrawals(x), w)
    case Elsewhere(r) => DocumentOf(r).kind !in {SwapKind, WithdrawKind}
  }

  predicate RegularRun(x: Office, calls: seq<Call>)
    decreases |calls|
  {
    calls == [] || (Regular(x, calls[0]) && RegularRun(Perform(x, calls[0]), calls[1..]))
  }

  // ── What one side sees of the other ──

  function ToSwaps(r: Request): S.Call {
    match r
    case Record(t) => S.CreateElsewhere(t)
    case Decide(id, amount, outcome) => S.ResolveElsewhere(id, amount, outcome)
  }

  function AllToSwaps(rs: seq<Request>): seq<S.Call> {
    if rs == [] then [] else [ToSwaps(rs[0])] + AllToSwaps(rs[1..])
  }

  function ToWithdrawals(r: Request): W.Call {
    match r
    case Record(t) => W.CreateElsewhere(t)
    case Decide(id, amount, outcome) => W.ResolveElsewhere(id, amount, outcome)
  }

  function AllToWithdrawals(rs: seq<Request>): seq<W.Call> {
    if rs == [] then [] else [ToWithdrawals(rs[0])] + AllToWithdrawals(rs[1..])
  }

  lemma SwapsFirst(sys: S.System, c: S.Call, rest: seq<S.Call>)
    ensures S.PerformAll(sys, [c] + rest) == S.PerformAll(S.Perform(sys, c), rest)
    ensures S.RegularRun(sys, [c] + rest) <==> S.Regular(sys, c) && S.RegularRun(S.Perform(sys, c), rest)
    ensures forall no ::
      S.OpsOf([c] + rest, no) == (if c.OnSwap? && c.no == no then [c.op] else []) + S.OpsOf(rest, no)
  {
    hide S.Perform, S.Regular;
    assert ([c] + rest)[1..] == rest;
  }

  lemma WithdrawalsFirst(sys: W.System, c: W.Call, rest: seq<W.Call>)
    ensures W.PerformAll(sys, [c] + rest) == W.PerformAll(W.Perform(sys, c), rest)
    ensures W.RegularRun(sys, [c] + rest) <==> W.Regular(sys, c) && W.RegularRun(W.Perform(sys, c), rest)
  {
    hide W.Perform, W.Regular;
    assert ([c] + rest)[1..] == rest;
  }

  lemma {:induction false} SwapsSee(sys: S.System, rs: seq<Request>)
    requires forall r :: r in rs ==> DocumentOf(r).kind != SwapKind
    ensures S.PerformAll(sys, AllToSwaps(rs)) == sys.(tb := ServeAllCapped(sys.tb, sys.capped, rs))
    ensures S.RegularRun(sys, AllToSwaps(rs))
    ensures forall no :: S.OpsOf(AllToSwaps(rs), no) == []
    decreases |rs|
  {
    if rs != [] {
      assert rs[0] in rs;
      var c, rest := ToSwaps(rs[0]), AllToSwaps(rs[1..]);
      assert S.Perform(sys, c) == sys.(tb := ServeCapped(sys.tb, sys.capped, rs[0])) && S.Regular(sys, c);
      hide S.Perform, S.Regular, ServeCapped;
      SwapsFirst(sys, c, rest);
      SwapsSee(S.Perform(sys, c), rs[1..]);
    }
  }

  lemma {:induction false} WithdrawalsSee(sys: W.System, rs: seq<Request>)
    requires forall r :: r in rs ==> DocumentOf(r).kind != WithdrawKind
    ensures W.PerformAll(sys, AllToWithdrawals(rs)) == sys.(tb := ServeAllCapped(sys.tb, sys.capped, rs))
    ensures W.RegularRun(sys, AllToWithdrawals(rs))
    decreases |rs|
  {
    if rs != [] {
      assert rs[0] in rs;
      var c, rest := ToWithdrawals(rs[0]), AllToWithdrawals(rs[1..]);
      assert W.Perform(sys, c) == sys.(tb := ServeCapped(sys.tb, sys.capped, rs[0])) && W.Regular(sys, c);
      hide W.Perform, W.Regular, ServeCapped;
      WithdrawalsFirst(sys, c, rest);
      WithdrawalsSee(W.Perform(sys, c), rs[1..]);
    }
  }

  lemma SwapCallAsks(sys: S.System, c: S.Call) returns (rs: seq<Request>)
    requires c.OpenSwap? || c.OnSwap?
    ensures ServeAllCapped(sys.tb, sys.capped, rs) == S.Perform(sys, c).tb
    ensures forall r :: r in rs ==> DocumentOf(r).kind == SwapKind
  {
    hide SwapModel.Step, SwapModel.CreateAndStart;
    rs := [];
    match c
    case OpenSwap(ctx) =>
      if S.RowOf(sys.swaps, ctx.swapNo) == |sys.swaps| {
        rs := SwapRequests.StartAsks(ctx.Flagged(sys.capped),
          SwapModel.Swap(SwapModel.Processing, None, false, [], [SwapModel.SwapCreated]), sys.tb, 1, 1, []);
      }
    case OnSwap(no, op) =>
      var i := S.RowOf(sys.swaps, no);
      if i < |sys.swaps| {
        rs := SwapRequests.StepAsks(sys.swaps[i].ctx.Flagged(sys.capped), sys.swaps[i].swap, sys.tb, op);
      }
  }

  lemma WithdrawalCallAsks(sys: W.System, c: W.Call) returns (rs: seq<Request>)
    requires W.Funded(sys) && (c.Request? || c.OnWithdrawal?)
    ensures ServeAllCapped(sys.tb, sys.capped, rs) == W.Perform(sys, c).tb
    ensures forall r :: r in rs ==> DocumentOf(r).kind == WithdrawKind
  {
    hide WithdrawModel.Step, WithdrawModel.CreateWithdrawal, Solvent;
    rs := [];
    match c
    case Request(t, dbOk) =>
      if W.RowOf(sys.rows, t.no) == |sys.rows| {
        rs := WithdrawRequests.CreationAsks(t, sys.tb, sys.capped, dbOk);
      }
    case OnWithdrawal(no, op) =>
      var i := W.RowOf(sys.rows, no);
      if i < |sys.rows| {
        assert sys.rows[i] in sys.rows;
        rs := WithdrawRequests.StepAsks(sys.rows[i], sys.tb, op, sys.capped);
      }
  }

  // ── One call ──

  /** Both sides are in order, and withdrawals hold on every account what their rows say. */
  ghost predicate Sane(x: Office) {
    && S.SysInv(Swaps(x)) && W.SysInv(Withdrawals(x)) && W.Funded(Withdrawals(x))
    && forall account :: W.Conserved(Withdrawals(x), account)
  }

  /** The swaps' part of the back office runs through the call as through calls of their own. */
  lemma SwapSide(x: Office, c: Call) returns (calls: seq<S.Call>)
    requires Sane(x) && Regular(x, c)
    ensures S.RegularRun(Swaps(x), calls) && S.PerformAll(Swaps(x), calls) == Swaps(Perform(x, c))
    ensures forall no :: S.OpsOf(calls, no) == if c.OfSwap? then S.OpsOf([c.s], no) else []
  {
    hide S.SysInv, W.SysInv, W.Funded, S.Regular, W.Regular, ServeCapped, S.Perform, W.Perform;
    match c
    case OfSwap(s) =>
      calls := [s];
      assert [s][1..] == [];
      SameCapped(Swaps(x), s);
    case OfWithdrawal(w) =>
      var rs := WithdrawalCallAsks(Withdrawals(x), w);
      calls := AllToSwaps(rs);
      SwapsSee(Swaps(x), rs);
    case Elsewhere(r) =>
      assert [r][1..] == [];
      calls := AllToSwaps([r]);
      SwapsSee(Swaps(x), [r]);
  }

  lemma SameCapped(sys: S.System, c: S.Call)
    ensures S.Perform(sys, c).capped == sys.capped
  {
    hide SwapModel.Step, SwapModel.CreateAndStart, CreateCapped, Resolve;
  }

  lemma SameFlags(sys: W.System, c: W.Call)
    ensures W.Perform(sys, c).capped == sys.capped
  {
    hide WithdrawModel.Step, WithdrawModel.CreateWithdrawal, CreateCapped, Resolve;
  }

  /** And so does the withdrawals' part. */
  lemma WithdrawalSide(x: Office, c: Call) returns (calls: seq<W.Call>)
    requires Regular(x, c)
    ensures W.RegularRun(Withdrawals(x), calls) && W.PerformAll(Withdrawals(x), calls) == Withdrawals(Perform(x, c))
  {
    hide S.Regular, W.Regular, ServeCapped, S.Perform, W.Perform;
    match c
    case OfSwap(s) =>
      var rs := SwapCallAsks(Swaps(x), s);
      calls := AllToWithdrawals(rs);
      WithdrawalsSee(Withdrawals(x), rs);
    case OfWithdrawal(w) =>
      calls := [w];
      assert [w][1..] == [];
      SameFlags(Withdrawals(x), w);
    case Elsewhere(r) =>
      assert [r][1..] == [];
      calls := AllToWithdrawals([r]);
      WithdrawalsSee(Withdrawals(x), [r]);
  }

  lemma PerformKeepsSane(x: Office, c: Call)
    requires Sane(x) && Regular(x, c)
    ensures Sane(Perform(x, c)) && Perform(x, c).capped == x.capped
  {
    hide S.SysInv, W.SysInv, W.Funded, W.Conserved, Regular, Perform;
    var sc := SwapSide(x, c);
    S.RunKeepsSysInv(Swaps(x), sc);
    var wc := WithdrawalSide(x, c);
    forall account ensures W.SysInv(Withdrawals(Perform(x, c))) && W.Conserved(Withdrawals(Perform(x, c)), account) {
      W.LocksAreConserved(Withdrawals(x), wc, account);
    }
    assert W.Conserved(Withdrawals(Perform(x, c)), 0);
    W.RunKeepsFunded(Withdrawals(x), wc);
  }

  // ── Whole runs ──

  lemma {:induction false} RunKeepsSane(x: Office, calls: seq<Call>)
    requires Sane(x) && RegularRun(x, calls)
    ensures Sane(PerformAll(x, calls)) && PerformAll(x, calls).capped == x.capped
    decreases |calls|
  {
    if calls != [] {
      hide Sane, Perform, Regular;
      PerformKeepsSane(x, calls[0]);
      RunKeepsSane(Perform(x, calls[0]), calls[1..]);
    }
  }

  lemma {:induction false} OpsConcat(a: seq<S.Call>, b: seq<S.Call>, no: string)
    ensures S.OpsOf(a + b, no) == S.OpsOf(a, no) + S.OpsOf(b, no)
    decreases |a|
  {
    if a == [] {
      assert a + b == b;
    } else {
      assert (a + b)[1..] == a[1..] + b;
      OpsConcat(a[1..], b, no);
    }
  }

  lemma {:induction false} SwapsConcat(sys: S.System, a: seq<S.Call>, b: seq<S.Call>)
    ensures S.PerformAll(sys, a + b) == S.PerformAll(S.PerformAll(sys, a), b)
    ensures S.RegularRun(sys, a) && S.RegularRun(S.PerformAll(sys, a), b) ==> S.RegularRun(sys, a + b)
    decreases |a|
  {
    if a == [] {
      assert a + b == b;
    } else {
      hide S.Perform, S.Regular;
      assert (a + b)[1..] == a[1..] + b;
      SwapsConcat(S.Perform(sys, a[0]), a[1..], b);
    }
  }

  lemma {:induction false} WithdrawalsConcat(sys: W.System, a: seq<W.Call>, b: seq<W.Call>)
    ensures W.PerformAll(sys, a + b) == W.PerformAll(W.PerformAll(sys, a), b)
    ensures W.RegularRun(sys, a) && W.RegularRun(W.PerformAll(sys, a), b) ==> W.RegularRun(sys, a + b)
    decreases |a|
  {
    if a == [] {
      assert a + b == b;
    } else {
      hide W.Perform, W.Regular;
      assert (a + b)[1..] == a[1..] + b;
      WithdrawalsConcat(W.Perform(sys, a[0]), a[1..], b);
    }
  }

  /** The calls made to one swap. */
  function SwapOps(calls: seq<Call>, no: string): seq<SwapModel.Op> {
    if calls == [] then []
    else (if calls[0].OfSwap? then S.OpsOf([calls[0].s], no) else []) + SwapOps(calls[1..], no)
  }

  /** Main theorem: whatever the back office does, its swaps' part is a run of the system of swaps, with
      the same calls to each swap, and its withdrawals' part is a run of the system of withdrawals. */
  lemma {:induction false} EachSideSeesARun(x: Office, calls: seq<Call>) returns (sc: seq<S.Call>, wc: seq<W.Call>)
    requires Sane(x) && RegularRun(x, calls)
    ensures S.RegularRun(Swaps(x), sc) && S.PerformAll(Swaps(x), sc) == Swaps(PerformAll(x, calls))
    ensures forall no :: S.OpsOf(sc, no) == SwapOps(calls, no)
    ensures W.RegularRun(Withdrawals(x), wc) && W.PerformAll(Withdrawals(x), wc) == Withdrawals(PerformAll(x, calls))
    decreases |calls|
  {
    sc, wc := [], [];
    if calls != [] {
      hide Sane, Perform, Regular, S.RegularRun, W.RegularRun, S.PerformAll, W.PerformAll, S.OpsOf;
      var x1 := Perform(x, calls[0]);
      var firstS := SwapSide(x, calls[0]);
      var firstW := WithdrawalSide(x, calls[0]);
      PerformKeepsSane(x, calls[0]);
      sc, wc := EachSideSeesARun(x1, calls[1..]);
      SwapsConcat(Swaps(x), firstS, sc);
      forall no ensures S.OpsOf(firstS + sc, no) == S.OpsOf(firstS, no) + S.OpsOf(sc, no) {
        OpsConcat(firstS, sc, no);
      }
      WithdrawalsConcat(Withdrawals(x), firstW, wc);
      sc, wc := firstS + sc, firstW + wc;
    }
  }

  // ── From an empty ledger ──

  function Opening(accounts: map<nat, Account>, capped: set<nat>): Office {
    Office([], [], Tb(accounts, []), capped)
  }

  lemma OpeningIsSane(accounts: map<nat, Account>, capped: set<nat>)
    ensures Sane(Opening(accounts, capped))
  {
  }

  /** Neither swaps nor withdrawals. */
  function Rest(w: Transfer -> int): Transfer -> int {
    (t: Transfer) => if t.id.source.kind in {SwapKind, WithdrawKind} then 0 else w(t)
  }

  lemma ElsewhereSplits(log: seq<Transfer>, account: nat)
    ensures
      var w := DebitsIn(Pending, account);
      Sum(log, SwapTotals.Elsewhere(w)) == Sum(log, W.HeldWeight(account)) + Sum(log, Rest(w))
  {
    var w := DebitsIn(Pending, account);
    SwapTotals.SumSplit(log, SwapTotals.Elsewhere(w), W.HeldWeight(account), Rest(w));
  }

  /** Main theorem: over every interleaving of swaps, withdrawals and other documents, an account's
      pending debits are the swaps' attempts in flight, what rolled-back creations of swaps left, the
      open locks of the withdrawals, and what the other documents hold. */
  lemma PendingAddsUp(accounts: map<nat, Account>, capped: set<nat>, calls: seq<Call>, account: nat)
    requires RegularRun(Opening(accounts, capped), calls)
    ensures
      var x, w := PerformAll(Opening(accounts, capped), calls), DebitsIn(Pending, account);
      && (forall k :: 0 <= k < |x.swaps| ==> SwapInvariant.RowsInv(x.swaps[k].ctx, x.swaps[k].swap))
      && DebitsPending(x.tb, account)
         == SwapTotals.Total(x.swaps, x.tb, Pending, account, Debit) + Sum(x.tb.log, SwapTotals.Unlisted(x.swaps, w))
            + W.Held(x.rows, account) + Sum(x.tb.log, Rest(w))
  {
    hide S.SysInv, W.SysInv, W.Funded, RegularRun, PerformAll, SwapInvariant.RowsInv;
    OpeningIsSane(accounts, capped);
    RunKeepsSane(Opening(accounts, capped), calls);
    var x := PerformAll(Opening(accounts, capped), calls);
    SwapTotals.SystemBalances(Swaps(x), Pending, account, Debit);
    ElsewhereSplits(x.tb.log, account);
    assert W.Conserved(Withdrawals(x), account);
  }

  /** What an account carries posted: the swaps' clear legs, and what other documents posted. */
  lemma PostedAddsUp(accounts: map<nat, Account>, capped: set<nat>, calls: seq<Call>, account: nat, dir: Direction)
    requires RegularRun(Opening(accounts, capped), calls)
    ensures
      var x, w := PerformAll(Opening(accounts, capped), calls), Weight(dir, Posted, account);
      && (forall k :: 0 <= k < |x.swaps| ==> SwapInvariant.RowsInv(x.swaps[k].ctx, x.swaps[k].swap))
      && Sum(x.tb.log, w)
         == SwapTotals.Total(x.swaps, x.tb, Posted, account, dir) + Sum(x.tb.log, SwapTotals.Elsewhere(w))
  {
    OpeningIsSane(accounts, capped);
    hide Sane, RegularRun, PerformAll, S.RegularRun, S.PerformAll, SwapInvariant.RowsInv;
    var sc, wc := EachSideSeesARun(Opening(accounts, capped), calls);
    SwapTotals.PostedAddsUp(accounts, capped, sc, account, dir);
  }

  /** Every swap and every withdrawal has sound rows, its own part of the ledger agrees with them (unless
      the swap diverged), and no flagged account is overdrawn. */
  lemma EveryDocumentIsSound(accounts: map<nat, Account>, capped: set<nat>, calls: seq<Call>)
    requires RegularRun(Opening(accounts, capped), calls)
    ensures
      var x := PerformAll(Opening(accounts, capped), calls);
      && Solvent(x.tb, capped)
      && (forall k: nat :: k < |x.swaps| ==> Sound(x.swaps[k].ctx, x.swaps[k].swap, S.Share(Swaps(x), k)))
      && (forall k :: 0 <= k < |x.rows| ==> WithdrawInvariant.Inv(x.rows[k], View(x.tb, x.rows[k].terms.Src())))
  {
    OpeningIsSane(accounts, capped);
    RunKeepsSane(Opening(accounts, capped), calls);
    var x := PerformAll(Opening(accounts, capped), calls);
    hide Sound, WithdrawInvariant.Inv, Solvent, PerformAll, RegularRun;
    forall k: nat | k < |x.swaps| ensures Sound(x.swaps[k].ctx, x.swaps[k].swap, S.Share(Swaps(x), k)) {
      assert S.SwapFits(Swaps(x), k);
    }
  }

  // ── Independence ──

  lemma {:induction false} RegularIsForeign(sys: S.System, calls: seq<S.Call>)
    requires S.RegularRun(sys, calls)
    ensures forall c :: c in calls ==> S.Foreign(c)
    decreases |calls|
  {
    if calls != [] {
      hide S.Perform;
      assert calls == [calls[0]] + calls[1..];
      RegularIsForeign(S.Perform(sys, calls[0]), calls[1..]);
    }
  }

  /** Where no account carries the no-overdraft flag: whatever other swaps, withdrawals and other
      documents do, a swap ends, in rows and ledger, where its own calls alone would have taken it. */
  lemma SwapsKeepToThemselves(x: Office, calls: seq<Call>, k: nat)
    requires Sane(x) && RegularRun(x, calls) && x.capped == {} && k < |x.swaps|
    ensures
      var b, after := x.swaps[k], PerformAll(x, calls);
      var alone := SwapModel.Run(b.ctx, b.swap, S.Share(Swaps(x), k), SwapOps(calls, b.ctx.swapNo));
      && k < |after.swaps| && after.swaps[k] == b.(swap := alone.swap)
      && S.Share(Swaps(after), k) == alone.tb
  {
    assert S.WellKeyed(Swaps(x));
    hide Sane, RegularRun, PerformAll, S.RegularRun, S.PerformAll, SwapOps, S.OpsOf, SwapModel.Run, S.WellKeyed;
    var sc, wc := EachSideSeesARun(x, calls);
    RegularIsForeign(Swaps(x), sc);
    S.SwapsDoNotInterfere(Swaps(x), sc, k);
  }

  /** Where some do: less those of its resumes that lacked cover when they came. */
  lemma SwapsMeetOnlyOverCover(x: Office, calls: seq<Call>, k: nat) returns (sc: seq<S.Call>)
    requires Sane(x) && RegularRun(x, calls) && k < |x.swaps|
    ensures S.OpsOf(sc, x.swaps[k].ctx.swapNo) == SwapOps(calls, x.swaps[k].ctx.swapNo)
    ensures
      var b, after := x.swaps[k], PerformAll(x, calls);
      var alone := SwapModel.Run(b.ctx, b.swap, S.Share(Swaps(x), k), S.Granted(Swaps(x), sc, k));
      && k < |after.swaps| && after.swaps[k] == b.(swap := alone.swap)
      && S.Share(Swaps(after), k) == alone.tb
  {
    assert S.SysInv(Swaps(x));
    hide Sane, RegularRun, PerformAll, S.RegularRun, S.PerformAll, SwapOps, S.OpsOf, SwapModel.Run, S.SysInv, S.Granted;
    var wc;
    sc, wc := EachSideSeesARun(x, calls);
    S.SwapsMeetOnlyOverCover(Swaps(x), sc, k);
  }

  // ── The identities ──

  /** The call's accounts are what its workflow takes them for; other documents stay within a book. */
  predicate InBooks(x: Office, c: Call) {
    match c
    case OfSwap(s) => SwapTotals.WithinBooks(x.tb, s)
    case OfWithdrawal(w) => W.StaysInBook(Withdrawals(x), w)
    case Elsewhere(r) => r.Record? ==> SameBook(x.tb, r.t)
  }

  predicate RunInBooks(x: Office, calls: seq<Call>)
    decreases |calls|
  {
    calls == [] || (InBooks(x, calls[0]) && RunInBooks(Perform(x, calls[0]), calls[1..]))
  }

  ghost predicate Coded(x: Office) {
    && Disciplined(x.tb) && SwapTotals.AllCoded(x.swaps, x.tb.accounts)
    && W.AllWellCoded(x.rows, x.tb.accounts)
  }

  lemma PerformStaysCoded(x: Office, c: Call)
    requires Sane(x) && Regular(x, c) && Coded(x) && InBooks(x, c)
    ensures Coded(Perform(x, c)) && Perform(x, c).tb.accounts == x.tb.accounts
  {
    hide S.SysInv, W.SysInv, W.Funded, S.Perform, W.Perform, Disciplined, SwapTotals.AllCoded, W.AllWellCoded;
    match c
    case OfSwap(s) => SwapTotals.PerformStays(Swaps(x), s);
    case OfWithdrawal(w) =>
      assert W.Conserved(Withdrawals(x), 0);
      W.PerformStaysInBook(Withdrawals(x), w);
    case Elsewhere(r) => ServeStaysInBook(x.tb, r);
  }

  /** Swaps, withdrawals and other documents keep every CLIENT and FIRM identity, in any interleaving,
      with whatever fails or is refused on the way. */
  lemma {:induction false} OfficeKeepsIdentities(x: Office, calls: seq<Call>, regs: seq<Registration>)
    requires Sane(x) && RegularRun(x, calls) && Coded(x) && RunInBooks(x, calls) && Provisioned(regs, x.tb)
    ensures AllIdentitiesHold(regs, ByRegistryCode(PerformAll(x, calls).tb))
    decreases |calls|
  {
    if calls == [] {
      DisciplinedIsBalanced(regs, x.tb);
    } else {
      hide Sane, Coded, Regular, InBooks, Perform, AllIdentitiesHold;
      PerformKeepsSane(x, calls[0]);
      PerformStaysCoded(x, calls[0]);
      OfficeKeepsIdentities(Perform(x, calls[0]), calls[1..], regs);
    }
  }
}
