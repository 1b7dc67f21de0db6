/** The shared ledger of a system of swaps: what every account carries is the sum of what its swaps
    and its other documents put there, and the identities hold after every interleaving. */
module SwapTotals {
  import opened Prelude
  import opened Ledger
  import opened LedgerViews
  import opened ChartOfAccounts
  import opened GapLaws
  import opened SwapModel
  import opened SwapLedger
  import opened SwapInvariant
  import opened SwapSteps
  import opened SwapRuns
  import opened SwapDivergence
  import opened SwapFunds
  import opened SwapLocality
  import opened Cover
  import opened SwapCover
  import opened SwapSystem

  // ── Whose transfers are they? ──

  function Only(src: Source, w: Transfer -> int): Transfer -> int {
    (t: Transfer) => if t.id.source == src then w(t) else 0
  }

  /** Of documents that are no swaps. */
  function Elsewhere(w: Transfer -> int): Transfer -> int {
    (t: Transfer) => if t.id.source.kind == SwapKind then 0 else w(t)
  }

  /** Of swaps whose creation was rolled back. */
  function Unlisted(swaps: seq<Booked>, w: Transfer -> int): Transfer -> int {
    (t: Transfer) => if IsUnlisted(swaps, t) then w(t) else 0
  }

  predicate IsUnlisted(swaps: seq<Booked>, t: Transfer) {
    t.id.source.kind == SwapKind && RowOf(swaps, t.id.source.no) == |swaps|
  }

  lemma {:induction false} MineSum(log: seq<Transfer>, src: Source, w: Transfer -> int)
    ensures Sum(Mine(log, src), w) == Sum(log, Only(src, w))
  {
    if log != [] {
      var n := |log| - 1;
      MineSum(log[..n], src, w);
      SumConcat(Mine(log[..n], src), if log[n].id.source == src then [log[n]] else [], w);
      SumOne(log[n], w);
    }
  }

  lemma {:induction false} SumSplit(log: seq<Transfer>, w: Transfer -> int, a: Transfer -> int, b: Transfer -> int)
    requires forall i :: 0 <= i < |log| ==> w(log[i]) == a(log[i]) + b(log[i])
    ensures Sum(log, w) == Sum(log, a) + Sum(log, b)
  {
    if log != [] {
      SumSplit(log[..|log| - 1], w, a, b);
    }
  }

  function OfSwaps(swaps: seq<Booked>, log: seq<Transfer>, w: Transfer -> int): int {
    if swaps == [] then 0
    else OfSwaps(swaps[..|swaps| - 1], log, w) + Sum(Mine(log, swaps[|swaps| - 1].ctx.Source()), w)
  }

  lemma LastListed(swaps: seq<Booked>, t: Transfer, w: Transfer -> int)
    requires swaps != [] && DistinctNos(swaps)
    ensures Unlisted(swaps[..|swaps| - 1], w)(t)
         == Unlisted(swaps, w)(t) + Only(swaps[|swaps| - 1].ctx.Source(), w)(t)
  {
    var n := |swaps| - 1;
    if t.id.source == swaps[n].ctx.Source() {
      assert forall k :: 0 <= k < n ==> swaps[k].ctx.swapNo != swaps[n].ctx.swapNo;
    }
  }

  /** Every transfer belongs to one swap of the table, to a swap that is not in it, or to another
      kind of document. */
  lemma {:induction false} SumPartition(swaps: seq<Booked>, log: seq<Transfer>, w: Transfer -> int)
    requires DistinctNos(swaps)
    ensures Sum(log, w) == OfSwaps(swaps, log, w) + Sum(log, Unlisted(swaps, w)) + Sum(log, Elsewhere(w))
  {
    if swaps == [] {
      SumSplit(log, w, Unlisted(swaps, w), Elsewhere(w));
    } else {
      var n := |swaps| - 1;
      var src := swaps[n].ctx.Source();
      SumPartition(swaps[..n], log, w);
      forall i | 0 <= i < |log|
        ensures Unlisted(swaps[..n], w)(log[i]) == Unlisted(swaps, w)(log[i]) + Only(src, w)(log[i])
      {
        LastListed(swaps, log[i], w);
      }
      SumSplit(log, Unlisted(swaps[..n], w), Unlisted(swaps, w), Only(src, w));
      MineSum(log, src, w);
    }
  }

  // ── What each swap carries ──

  /** What a swap has posted and holds pending on one side of an account: its clear legs and its
      attempt in flight; or, when it diverged, one leg more and what the next one left. */
  function Carried(b: Booked, share: Tb, phase: Phase, account: nat, dir: Direction): int
    requires RowsInv(b.ctx, b.swap)
  {
    var last := Last(b.swap.rows);
    if Diverged(b.ctx, b.swap, share) then
      if phase == Posted then LegsMove(b.ctx, last.legSeq, account, dir)
      else LeftMoves(b.ctx, share, last.legSeq + 1, account, dir)
    else
      if phase == Posted then LegsMove(b.ctx, ClearLegs(b.swap.rows), account, dir)
      else InFlightMoves(b.ctx, b.swap.rows, account, dir)
  }

  function Total(swaps: seq<Booked>, tb: Tb, phase: Phase, account: nat, dir: Direction): int
    requires forall k :: 0 <= k < |swaps| ==> RowsInv(swaps[k].ctx, swaps[k].swap)
  {
    if swaps == [] then 0
    else
      var b := swaps[|swaps| - 1];
      Total(swaps[..|swaps| - 1], tb, phase, account, dir)
      + Carried(b, View(tb, b.ctx.Source()), phase, account, dir)
  }

  lemma CarriedIsShare(b: Booked, share: Tb, phase: Phase, account: nat, dir: Direction)
    requires Sound(b.ctx, b.swap, share) && phase in {Posted, Pending}
    ensures Sum(share.log, Weight(dir, phase, account)) == Carried(b, share, phase, account, dir)
  {
    if Diverged(b.ctx, b.swap, share) {
      DivergedBalances(b.ctx, b.swap, share, account, dir);
    } else {
      BalancesFollowLegs(b.ctx, b.swap, share, account, dir);
    }
  }

  ghost predicate AllSound(swaps: seq<Booked>, tb: Tb) {
    forall k :: 0 <= k < |swaps| ==> Sound(swaps[k].ctx, swaps[k].swap, View(tb, swaps[k].ctx.Source()))
  }

  lemma {:induction false} TotalIsOfSwaps(swaps: seq<Booked>, tb: Tb, phase: Phase, account: nat, dir: Direction)
    requires AllSound(swaps, tb) && phase in {Posted, Pending}
    ensures forall k :: 0 <= k < |swaps| ==> RowsInv(swaps[k].ctx, swaps[k].swap)
    ensures Total(swaps, tb, phase, account, dir) == OfSwaps(swaps, tb.log, Weight(dir, phase, account))
  {
    if swaps != [] {
      var b := swaps[|swaps| - 1];
      assert Sound(b.ctx, b.swap, View(tb, b.ctx.Source()));
      CarriedIsShare(b, View(tb, b.ctx.Source()), phase, account, dir);
      hide Sound, RowsInv, Carried;
      TotalIsOfSwaps(swaps[..|swaps| - 1], tb, phase, account, dir);
    }
  }

  // ── Rolled-back creations post nothing ──

  ghost predicate UnlistedPend(sys: System) {
    forall t :: t in sys.tb.log && IsUnlisted(sys.swaps, t) ==> t.phase == Pending
  }

  /** Local work on one source leaves the transfers of all others in the log as they were. */
  lemma OthersStay(a: Tb, b: Tb, v: Tb, src: Source, t: Transfer)
    requires LocalTo(a, b, v, src) && t in b.log && t.id.source != src
    ensures t in a.log
  {
    MineMembers(b.log, t.id.source);
    MineMembers(a.log, t.id.source);
    assert t in View(b, t.id.source).log && View(b, t.id.source) == View(a, t.id.source);
  }

  lemma {:induction false} AllPending(
      ctx: Ctx, spec: LegSpec, entries: seq<Entry>, attempt: nat, t: Transfer)
    requires ctx.Amount(spec.amount) > 0 ==> forall e :: e in entries ==>
      ctx.Resolves(e.debitCode, spec.side) && ctx.Resolves(e.creditCode, spec.side)
    requires t in Transfers(ctx, spec, entries, attempt, Pending)
    ensures t.phase == Pending
  {
    if t != TransferFor(ctx, spec, entries[0], attempt, Pending) {
      AllPending(ctx, spec, entries[1..], attempt, t);
    }
  }

  lemma OpenedPends(sys: System, ctx: Ctx, t: Transfer)
    requires SysInv(sys) && Regular(sys, OpenSwap(ctx)) && UnlistedPend(sys)
    requires RowOf(sys.swaps, ctx.swapNo) == |sys.swaps|
    requires t in Perform(sys, OpenSwap(ctx)).tb.log && IsUnlisted(Perform(sys, OpenSwap(ctx)).swaps, t)
    ensures t.phase == Pending
  {
    var src, view := ctx.Source(), View(sys.tb, ctx.Source());
    KeyedIsUnique(sys);
    ExecuteEstablishesInv(ctx, view);
    CreationIsShared(ctx, sys.tb, sys.capped);
    hide ExecuteSwap, Inv, CanStart, SysInv, CoverFits, UnlistedPend;
    var o := CreatedIsSound(ctx, sys.tb, sys.capped);
    if t.id.source == src && o.tb != sys.tb {
      MineMembers(o.tb.log, src);
      assert t in View(o.tb, src).log;
      var spec := ctx.Spec(1);
      AllPending(ctx, spec, Bookable(ctx, view, spec, spec.entries), 1, t);
    } else {
      if t.id.source != src {
        OthersStay(sys.tb, o.tb, View(o.tb, src), src, t);
      }
      StillUnlisted(sys, ctx, o, t);
      WasPending(sys, t);
    }
  }

  lemma WasPending(sys: System, t: Transfer)
    requires UnlistedPend(sys) && t in sys.tb.log && IsUnlisted(sys.swaps, t)
    ensures t.phase == Pending
  {
  }

  lemma StillUnlisted(sys: System, ctx: Ctx, o: Outcome, t: Transfer)
    requires IsUnlisted(AfterOpen(sys, ctx, o).swaps, t)
    ensures IsUnlisted(sys.swaps, t)
  {
    var all := AfterOpen(sys, ctx, o).swaps;
    assert all == sys.swaps || all[..|all| - 1] == sys.swaps;
    assert forall k :: 0 <= k < |sys.swaps| ==> all[k] == sys.swaps[k];
  }

  lemma MovedPends(sys: System, i: nat, op: Op, t: Transfer)
    requires SysInv(sys) && UnlistedPend(sys) && i < |sys.swaps|
    requires
      var sys' := AfterStep(sys, i, Step(sys.swaps[i].ctx.Flagged(sys.capped), sys.swaps[i].swap, sys.tb, op));
      t in sys'.tb.log && IsUnlisted(sys'.swaps, t)
    ensures t.phase == Pending
  {
    var b := sys.swaps[i];
    var f := b.ctx.Flagged(sys.capped);
    var o, v := Step(f, b.swap, sys.tb, op), Alone(f, b.swap, sys.tb, op);
    assert SwapFits(sys, i) && f.Unflagged() == b.ctx;
    SharedStep(f, b.swap, sys.tb, op);
    hide Step, Sound, Alone;
    var all := AfterStep(sys, i, o).swaps;
    assert forall k :: 0 <= k < |all| ==> all[k].ctx == sys.swaps[k].ctx;
    assert all[i].ctx.swapNo == b.ctx.swapNo;
    OthersStay(sys.tb, o.tb, v.tb, b.ctx.Source(), t);
  }

  lemma ElsewherePends(sys: System, c: Call, t: Transfer)
    requires SysInv(sys) && UnlistedPend(sys) && Foreign(c) && (c.CreateElsewhere? || c.ResolveElsewhere?)
    requires t in Perform(sys, c).tb.log && IsUnlisted(sys.swaps, t)
    ensures t.phase == Pending
  {
    match c
    case CreateElsewhere(x) =>
    case ResolveElsewhere(id, amount, outcome) =>
      var r := Resolve(sys.tb, id, amount, outcome);
      if r.Ok? {
        var k :| 0 <= k < |r.value.log| && r.value.log[k] == t;
        assert sys.tb.log[k] in sys.tb.log && sys.tb.log[k].id == t.id;
        assert sys.tb.log[IndexOf(sys.tb.log, id)].id.source.kind != SwapKind;
        assert t == sys.tb.log[k];
      }
  }

  lemma PerformPends(sys: System, c: Call)
    requires SysInv(sys) && Regular(sys, c) && UnlistedPend(sys)
    ensures UnlistedPend(Perform(sys, c))
  {
    var sys' := Perform(sys, c);
    hide SysInv, Step, ExecuteSwap, Create, Resolve;
    forall t | t in sys'.tb.log && IsUnlisted(sys'.swaps, t) ensures t.phase == Pending {
      match c
      case OpenSwap(ctx) =>
        if RowOf(sys.swaps, ctx.swapNo) == |sys.swaps| {
          OpenedPends(sys, ctx, t);
        }
      case OnSwap(no, op) =>
        if RowOf(sys.swaps, no) < |sys.swaps| {
          MovedPends(sys, RowOf(sys.swaps, no), op, t);
        }
      case _ => ElsewherePends(sys, c, t);
    }
  }

  lemma {:induction false} RunPends(sys: System, calls: seq<Call>)
    requires SysInv(sys) && RegularRun(sys, calls) && UnlistedPend(sys)
    ensures SysInv(PerformAll(sys, calls)) && UnlistedPend(PerformAll(sys, calls))
    decreases |calls|
  {
    if calls != [] {
      PerformKeepsSysInv(sys, calls[0]);
      PerformPends(sys, calls[0]);
      RunPends(Perform(sys, calls[0]), calls[1..]);
    }
  }

  lemma {:induction false} UnlistedPostsNothing(
      swaps: seq<Booked>, log: seq<Transfer>, account: nat, dir: Direction)
    requires forall t :: t in log && IsUnlisted(swaps, t) ==> t.phase == Pending
    ensures Sum(log, Unlisted(swaps, Weight(dir, Posted, account))) == 0
  {
    if log != [] {
      assert log[|log| - 1] in log;
      forall t | t in log[..|log| - 1] ensures t in log { }
      UnlistedPostsNothing(swaps, log[..|log| - 1], account, dir);
    }
  }

  // ── Balances ──

  lemma SystemBalances(sys: System, phase: Phase, account: nat, dir: Direction)
    requires SysInv(sys) && phase in {Posted, Pending}
    ensures forall k :: 0 <= k < |sys.swaps| ==> RowsInv(sys.swaps[k].ctx, sys.swaps[k].swap)
    ensures
      var w := Weight(dir, phase, account);
      Sum(sys.tb.log, w)
      == Total(sys.swaps, sys.tb, phase, account, dir) + Sum(sys.tb.log, Unlisted(sys.swaps, w))
         + Sum(sys.tb.log, Elsewhere(w))
  {
    forall k: nat | k < |sys.swaps| ensures Sound(sys.swaps[k].ctx, sys.swaps[k].swap, Share(sys, k)) {
      assert SwapFits(sys, k);
    }
    TotalIsOfSwaps(sys.swaps, sys.tb, phase, account, dir);
    SumPartition(sys.swaps, sys.tb.log, Weight(dir, phase, account));
  }

  /** Main theorem, over every interleaving from a ledger without swaps: what any account carries
      posted is what its swaps' clear legs moved plus what other documents posted. */
  lemma PostedAddsUp(accounts: map<nat, Account>, capped: set<nat>, calls: seq<Call>, account: nat, dir: Direction)
    requires RegularRun(Opening(accounts, capped), calls)
    ensures
      var sys := PerformAll(Opening(accounts, capped), calls);
      var w := Weight(dir, Posted, account);
      && (forall k :: 0 <= k < |sys.swaps| ==> RowsInv(sys.swaps[k].ctx, sys.swaps[k].swap))
      && Sum(sys.tb.log, w) == Total(sys.swaps, sys.tb, Posted, account, dir) + Sum(sys.tb.log, Elsewhere(w))
  {
    var none := Opening(accounts, capped);
    RunPends(none, calls);
    var sys := PerformAll(none, calls);
    SystemBalances(sys, Posted, account, dir);
    UnlistedPostsNothing(sys.swaps, sys.tb.log, account, dir);
  }

  /** And what it carries pending is the attempts in flight, what rolled-back creations left, and
      what other documents hold. */
  lemma PendingAddsUp(accounts: map<nat, Account>, capped: set<nat>, calls: seq<Call>, account: nat, dir: Direction)
    requires RegularRun(Opening(accounts, capped), calls)
    ensures
      var sys := PerformAll(Opening(accounts, capped), calls);
      var w := Weight(dir, Pending, account);
      && (forall k :: 0 <= k < |sys.swaps| ==> RowsInv(sys.swaps[k].ctx, sys.swaps[k].swap))
      && Sum(sys.tb.log, w)
         == Total(sys.swaps, sys.tb, Pending, account, dir) + Sum(sys.tb.log, Unlisted(sys.swaps, w))
            + Sum(sys.tb.log, Elsewhere(w))
  {
    var none := Opening(accounts, capped);
    RunKeepsSysInv(none, calls);
    SystemBalances(PerformAll(none, calls), Pending, account, dir);
  }

  // ── A swap's calls never cross books ──

  /** The registry files accounts under the codes the ledger has for them, and the plan is one of
      the two. */
  predicate Coded(ctx: Ctx, accounts: map<nat, Account>) {
    && ctx.plan == SwapLegPlan(ctx.fromIsFiat)
    && forall key :: key in ctx.accounts && ctx.accounts[key] in accounts ==> accounts[ctx.accounts[key]].code == key.0
  }

  lemma EntrySameBook(ctx: Ctx, tb: Tb, leg: nat, e: Entry, t: Transfer)
    requires Coded(ctx, tb.accounts) && 1 <= leg <= LEGS && e in ctx.Spec(leg).entries && Create(tb, t).Ok?
    requires !Has(tb.log, t.id)
    requires ctx.Resolves(e.debitCode, ctx.Spec(leg).side) && ctx.Resolves(e.creditCode, ctx.Spec(leg).side)
    requires t.debit == ctx.accounts[(e.debitCode, ctx.Spec(leg).side)]
    requires t.credit == ctx.accounts[(e.creditCode, ctx.Spec(leg).side)]
    ensures SameBook(tb, t)
  {
    PlanMovesWithinABook(ctx.fromIsFiat, leg, e);
    assert (e.debitCode, ctx.Spec(leg).side) in ctx.accounts && (e.creditCode, ctx.Spec(leg).side) in ctx.accounts;
  }

  /** The ledger stays disciplined, and its accounts stay. */
  ghost predicate Stays(tb: Tb, tb': Tb) { Disciplined(tb) ==> Disciplined(tb') && tb'.accounts == tb.accounts }

  lemma {:induction false} InitiateStays(ctx: Ctx, leg: nat, entries: seq<Entry>, attempt: nat, tb: Tb)
    requires Coded(ctx, tb.accounts) && 1 <= leg <= LEGS && Disciplined(tb)
    requires forall e :: e in entries ==> e in ctx.Spec(leg).entries
    ensures Stays(tb, InitiatePending(ctx, ctx.Spec(leg), entries, attempt, tb).tb)
    decreases |entries|
  {
    var spec := ctx.Spec(leg);
    if entries != [] && ctx.Amount(spec.amount) > 0 {
      var e := entries[0];
      if ctx.Resolves(e.debitCode, spec.side) && ctx.Resolves(e.creditCode, spec.side) {
        var t := TransferFor(ctx, spec, e, attempt, Pending);
        if Create(tb, t).Ok? {
          if !Has(tb.log, t.id) {
            EntrySameBook(ctx, tb, leg, e, t);
            CreateStaysInBook(tb, t);
          }
          InitiateStays(ctx, leg, entries[1..], attempt, Create(tb, t).value);
        }
      }
    }
  }

  lemma {:induction false} ResolveLegStays(
      ctx: Ctx, spec: LegSpec, entries: seq<Entry>, attempt: nat, tb: Tb, outcome: Phase)
    requires Disciplined(tb)
    ensures Stays(tb, ResolveLeg(ctx, spec, entries, attempt, tb, outcome).tb)
    decreases |entries|
  {
    if entries != [] && ctx.Amount(spec.amount) > 0 {
      var id, amount := ctx.Id(entries[0].event, attempt), ctx.Amount(spec.amount);
      if Resolve(tb, id, amount, outcome).Ok? {
        ResolveStaysInBook(tb, id, amount, outcome);
        ResolveLegStays(ctx, spec, entries[1..], attempt, Resolve(tb, id, amount, outcome).value, outcome);
      }
    }
  }

  lemma StartStays(ctx: Ctx, s: Swap, tb: Tb, leg: nat, attempt: nat, audits: seq<Audit>)
    requires Coded(ctx, tb.accounts) && 1 <= leg <= LEGS && Disciplined(tb)
    ensures Stays(tb, CreateAndStart(ctx, s, tb, leg, attempt, audits).tb)
  {
    InitiateStays(ctx, leg, ctx.Spec(leg).entries, attempt, tb);
  }

  lemma FollowStays(ctx: Ctx, s: Swap, tb: Tb, i: nat, next: LegStatus)
    requires Coded(ctx, tb.accounts) && Disciplined(tb) && i < |s.rows| && 1 <= s.rows[i].legSeq <= LEGS
    ensures Stays(tb, Follow(ctx, s, tb, i, next).tb)
  {
    var row := s.rows[i];
    var s1 := s.(rows := s.rows[i := row.(status := next)]);
    var spec := ctx.Spec(row.legSeq);
    hide InitiatePending, CreateAndStart, ResolveLeg, Disciplined, Coded, Transition;
    if next == Clear {
      var post := ResolveLeg(ctx, spec, spec.entries, row.attempt, tb, Posted);
      ResolveLegStays(ctx, spec, spec.entries, row.attempt, tb, Posted);
      if row.legSeq < LEGS {
        StartStays(ctx, s1.(audits := s1.audits + [LegPosted(row.legSeq, row.attempt)]), post.tb, row.legSeq + 1, 1,
            []);
      }
    } else if TerminalFail(next) {
      var voided := ResolveLeg(ctx, spec, spec.entries, row.attempt, tb, Voided);
      ResolveLegStays(ctx, spec, spec.entries, row.attempt, tb, Voided);
      StartStays(ctx, s1, voided.tb, row.legSeq, row.attempt + 1, [LegRetried(row.legSeq, row.attempt)]);
    }
  }

  lemma AdvanceStays(ctx: Ctx, s: Swap, tb: Tb, leg: nat, action: LegAction)
    requires Coded(ctx, tb.accounts) && Disciplined(tb)
    ensures Stays(tb, AdvanceBody(ctx, s, tb, leg, action).tb)
  {
    AdvanceSpelledOut(ctx, s, tb, leg, action);
    if Admitted(s, leg) {
      hide AdvanceBody, Follow, InitiatePending, Coded, Disciplined, Transition;
      InitiateStays(ctx, leg, ctx.Spec(leg).entries, 1, tb);
      var i, pend := Active(s.rows, leg), Pend(ctx, s, tb, leg);
      var next := Transition(ctx.IsFiat(ctx.Spec(leg).side), s.rows[i].status, action);
      if pend.ok && next.Some? {
        FollowStays(ctx, s, pend.tb, i, next.value);
      }
    }
  }

  lemma StepStays(ctx: Ctx, s: Swap, tb: Tb, op: Op)
    requires Coded(ctx, tb.accounts) && Disciplined(tb)
    ensures Stays(tb, Step(ctx, s, tb, op).tb)
  {
    hide AdvanceBody, CreateAndStart, Coded, Disciplined;
    match op
    case Advance(leg, action) => AdvanceStays(ctx, s, tb, leg, action);
    case Resume(leg) =>
      var i := Active(s.rows, leg);
      if i >= 0 && 1 <= leg <= LEGS {
        StartStays(ctx, s, tb, leg, s.rows[i].attempt + 1, [LegResumed(leg, s.rows[i].attempt + 1)]);
      }
  }

  // ── The identities of the whole ledger ──

  predicate WithinBooks(tb: Tb, c: Call) {
    match c
    case OpenSwap(ctx) => Coded(ctx, tb.accounts)
    case CreateElsewhere(t) => SameBook(tb, t)
    case _ => true
  }

  ghost predicate AllCoded(swaps: seq<Booked>, accounts: map<nat, Account>) {
    forall k :: 0 <= k < |swaps| ==> Coded(swaps[k].ctx, accounts)
  }

  lemma FlagsKeepCodes(ctx: Ctx, accounts: map<nat, Account>, capped: set<nat>)
    requires Coded(ctx, accounts)
    ensures Coded(ctx.Flagged(capped), accounts)
  {
  }

  lemma PerformStays(sys: System, c: Call)
    requires Disciplined(sys.tb) && AllCoded(sys.swaps, sys.tb.accounts) && WithinBooks(sys.tb, c)
    ensures
      var sys' := Perform(sys, c);
      && Disciplined(sys'.tb) && sys'.tb.accounts == sys.tb.accounts
      && AllCoded(sys'.swaps, sys'.tb.accounts)
  {
    hide Step, CreateAndStart, Disciplined, Coded, Create, Resolve;
    match c
    case OpenSwap(ctx) =>
      if RowOf(sys.swaps, ctx.swapNo) == |sys.swaps| {
        FlagsKeepCodes(ctx, sys.tb.accounts, sys.capped);
        StartStays(ctx.Flagged(sys.capped), Swap(Processing, None, false, [], [SwapCreated]), sys.tb, 1, 1, []);
      }
    case OnSwap(no, op) =>
      var i := RowOf(sys.swaps, no);
      if i < |sys.swaps| {
        FlagsKeepCodes(sys.swaps[i].ctx, sys.tb.accounts, sys.capped);
        StepStays(sys.swaps[i].ctx.Flagged(sys.capped), sys.swaps[i].swap, sys.tb, op);
      }
    case CreateElsewhere(t) => ServeStaysInBook(sys.tb, Record(t));
    case ResolveElsewhere(id, amount, outcome) => ServeStaysInBook(sys.tb, Decide(id, amount, outcome));
  }

  /** Main theorem: swaps created, advanced, failed, diverged or refused, and other documents posting
      within the books, in any interleaving, keep every CLIENT and FIRM identity of the shared
      ledger. */
  lemma {:induction false} SystemKeepsIdentities(sys: System, calls: seq<Call>, regs: seq<Registration>)
    requires Disciplined(sys.tb) && AllCoded(sys.swaps, sys.tb.accounts) && Provisioned(regs, sys.tb)
    requires forall c :: c in calls ==> WithinBooks(sys.tb, c)
    ensures AllIdentitiesHold(regs, ByRegistryCode(PerformAll(sys, calls).tb))
    decreases |calls|
  {
    if calls == [] {
      DisciplinedIsBalanced(regs, sys.tb);
    } else {
      PerformStays(sys, calls[0]);
      var sys1 := Perform(sys, calls[0]);
      hide Disciplined, AllCoded, Perform, Coded;
      forall c | c in calls[1..] ensures WithinBooks(sys1.tb, c) {
        assert c in calls;
      }
      SystemKeepsIdentities(sys1, calls[1..], regs);
    }
  }
}
