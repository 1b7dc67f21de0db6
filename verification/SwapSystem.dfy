/** Many swaps on one ledger, beside every other business document: swaps are created and called, and
    deposits and withdrawals posted, in any order. Some accounts may carry the no-overdraft flag. Each
    swap behaves exactly as if it were alone, except that a creation or a resume is refused, without a
    trace, when its flagged payable lacks cover. */
module SwapSystem {
  import opened Prelude
  import opened Ledger
  import opened LedgerViews
  import opened Cover
  import opened SwapModel
  import opened SwapLedger
  import opened SwapInvariant
  import opened SwapSteps
  import opened SwapRuns
  import opened SwapDivergence
  import opened SwapLocality
  import opened SwapCover

  // ── The whole system ──

  datatype Booked = Booked(ctx: Ctx, swap: Swap)

  /** The swap table, in insertion order, the shared ledger, and its flagged accounts. */
  datatype System = System(swaps: seq<Booked>, tb: Tb, capped: set<nat>)

  /** Creating a swap, a call to one, or a ledger request of some other kind of document. */
  datatype Call =
    | OpenSwap(ctx: Ctx)
    | OnSwap(no: string, op: Op)
    | CreateElsewhere(t: Transfer)
    | ResolveElsewhere(id: TransferId, amount: nat, outcome: Phase)

  /** Requests of other documents are of other kinds; flags are the ledger's, not the swap's. */
  predicate Foreign(c: Call) {
    match c
    case OpenSwap(ctx) => ctx.capped == {}
    case OnSwap(_, _) => true
    case CreateElsewhere(t) => t.id.source.kind != SwapKind
    case ResolveElsewhere(id, _, _) => id.source.kind != SwapKind
  }

  function RowOf(swaps: seq<Booked>, no: string): (i: nat)
    ensures i <= |swaps|
    ensures i < |swaps| ==> swaps[i].ctx.swapNo == no
    ensures i == |swaps| ==> forall k :: 0 <= k < |swaps| ==> swaps[k].ctx.swapNo != no
  {
    if swaps == [] then 0
    else if swaps[|swaps| - 1].ctx.swapNo == no then |swaps| - 1
    else
      var i := RowOf(swaps[..|swaps| - 1], no);
      if i == |swaps| - 1 then |swaps| else i
  }

  /** The table refuses a number it already has before anything is booked. */
  function Perform(sys: System, c: Call): System {
    match c
    case OpenSwap(ctx) =>
      if RowOf(sys.swaps, ctx.swapNo) < |sys.swaps| then sys
      else AfterOpen(sys, ctx, ExecuteSwap(ctx.Flagged(sys.capped), sys.tb))
    case OnSwap(no, op) =>
      var i := RowOf(sys.swaps, no);
      if i == |sys.swaps| then sys
      else AfterStep(sys, i, Step(sys.swaps[i].ctx.Flagged(sys.capped), sys.swaps[i].swap, sys.tb, op))
    case CreateElsewhere(t) =>
      (match CreateCapped(sys.tb, sys.capped, t) case Ok(tb) => sys.(tb := tb) case Err(_) => sys)
    case ResolveElsewhere(id, amount, outcome) =>
      (match Resolve(sys.tb, id, amount, outcome) case Ok(tb) => sys.(tb := tb) case Err(_) => sys)
  }

  /** A creation that throws leaves no row, but whatever it sent to the ledger. */
  function AfterOpen(sys: System, ctx: Ctx, o: Outcome): System {
    System(if o.ok then sys.swaps + [Booked(ctx, o.swap)] else sys.swaps, o.tb, sys.capped)
  }

  function AfterStep(sys: System, i: nat, o: Outcome): System
    requires i < |sys.swaps|
  {
    System(sys.swaps[i := sys.swaps[i].(swap := o.swap)], o.tb, sys.capped)
  }

  function PerformAll(sys: System, calls: seq<Call>): System
    decreases |calls|
  {
    if calls == [] then sys else PerformAll(Perform(sys, calls[0]), calls[1..])
  }

  predicate DistinctNos(swaps: seq<Booked>) {
    forall i, j :: 0 <= i < j < |swaps| ==> swaps[i].ctx.swapNo != swaps[j].ctx.swapNo
  }

  predicate WellKeyed(sys: System) {
    && UniqueIds(sys.tb.log) && DistinctNos(sys.swaps)
    && forall k :: 0 <= k < |sys.swaps| ==> sys.swaps[k].ctx.capped == {}
  }

  /** The part of the ledger that belongs to the k-th swap. */
  function Share(sys: System, k: nat): Tb
    requires k < |sys.swaps|
  {
    View(sys.tb, sys.swaps[k].ctx.Source())
  }

  /** The k-th swap's row and share of the ledger have not moved. */
  ghost predicate Untouched(sys: System, sys': System, k: nat) {
    && k < |sys.swaps| && k < |sys'.swaps|
    && sys'.swaps[k] == sys.swaps[k] && Share(sys', k) == Share(sys, k)
  }

  // ── Every swap of every system ──

  /** A new swap draws a number the ledger has not seen, under a proper plan, and where accounts carry
      flags they fit it; everything else on the ledger belongs to other kinds of documents. */
  predicate Regular(sys: System, c: Call) {
    && Foreign(c)
    && (c.OpenSwap? ==>
          Proper(c.ctx) && CoverFits(c.ctx.Flagged(sys.capped)) && View(sys.tb, c.ctx.Source()).log == [])
  }

  predicate RegularRun(sys: System, calls: seq<Call>)
    decreases |calls|
  {
    calls == [] || (Regular(sys, calls[0]) && RegularRun(Perform(sys, calls[0]), calls[1..]))
  }

  ghost predicate SwapFits(sys: System, k: nat)
    requires k < |sys.swaps|
  {
    Sound(sys.swaps[k].ctx, sys.swaps[k].swap, Share(sys, k)) && CoverFits(sys.swaps[k].ctx.Flagged(sys.capped))
  }

  ghost predicate SysInv(sys: System) {
    WellKeyed(sys) && Solvent(sys.tb, sys.capped) && forall k: nat :: k < |sys.swaps| ==> SwapFits(sys, k)
  }

  lemma ExecuteLocal(ctx: Ctx, tb: Tb)
    requires ctx.capped == {} && UniqueIds(tb.log)
    ensures SameOutcome(tb, ExecuteSwap(ctx, tb), ExecuteSwap(ctx, View(tb, ctx.Source())), ctx.Source())
  {
    CreateAndStartLocal(ctx, Swap(Processing, None, false, [], [SwapCreated]), tb, 1, 1, []);
  }

  /** Creating a swap either is refused for want of cover, without a trace, or goes as on the swap's
      own, empty share of the ledger. */
  lemma CreationIsShared(ctx: Ctx, tb: Tb, capped: set<nat>)
    requires ctx.capped == {} && UniqueIds(tb.log) && CoverFits(ctx.Flagged(capped))
    ensures
      var o := ExecuteSwap(ctx.Flagged(capped), tb);
      || (!o.ok && o.tb == tb)
      || SameOutcome(tb, o, ExecuteSwap(ctx, View(tb, ctx.Source())), ctx.Source())
  {
    ExecuteLocal(ctx, tb);
    var f, s := ctx.Flagged(capped), Swap(Processing, None, false, [], [SwapCreated]);
    assert f.Unflagged() == ctx;
    if capped == {} {
      assert f == ctx;
    } else {
      StartsUnlessShort(f, s, tb, 1, 1, []);
    }
    hide CreateAndStart, Short, FlagsFit;
  }

  /** A swap created under an unused number is sound on its own share of the ledger. */
  lemma CreatedIsSound(ctx: Ctx, tb: Tb, capped: set<nat>) returns (o: Outcome)
    requires UniqueIds(tb.log) && Proper(ctx) && CoverFits(ctx.Flagged(capped)) && View(tb, ctx.Source()).log == []
    ensures o == ExecuteSwap(ctx.Flagged(capped), tb)
    ensures o.ok ==> Sound(ctx, o.swap, View(o.tb, ctx.Source()))
    ensures LocalTo(tb, o.tb, View(o.tb, ctx.Source()), ctx.Source())
  {
    o := ExecuteSwap(ctx.Flagged(capped), tb);
    CreationIsShared(ctx, tb, capped);
    ExecuteEstablishesInv(ctx, View(tb, ctx.Source()));
    hide ExecuteSwap, Inv, Diverged, CanStart, LeftByStart, CoverFits;
  }

  lemma ApartFrom(a: Tb, b: Tb, v: Tb, src: Source, other: Source)
    requires LocalTo(a, b, v, src) && other != src
    ensures View(b, other) == View(a, other)
  {
  }

  /** After a creation, a swap created before and the new one fit. */
  lemma OpenedFits(sys: System, ctx: Ctx, o: Outcome, k: nat)
    requires SysInv(sys) && RowOf(sys.swaps, ctx.swapNo) == |sys.swaps| && CoverFits(ctx.Flagged(sys.capped))
    requires LocalTo(sys.tb, o.tb, View(o.tb, ctx.Source()), ctx.Source())
    requires o.ok ==> Sound(ctx, o.swap, View(o.tb, ctx.Source()))
    requires k < |AfterOpen(sys, ctx, o).swaps|
    ensures SwapFits(AfterOpen(sys, ctx, o), k)
  {
    var sys' := AfterOpen(sys, ctx, o);
    if k < |sys.swaps| {
      assert SwapFits(sys, k) && sys'.swaps[k] == sys.swaps[k];
      hide Sound, CoverFits, View, LocalTo, SysInv;
      ApartFrom(sys.tb, o.tb, View(o.tb, ctx.Source()), ctx.Source(), sys.swaps[k].ctx.Source());
    } else {
      assert sys'.swaps[k] == Booked(ctx, o.swap);
      hide Sound, CoverFits, View, LocalTo, SysInv;
    }
  }

  lemma OpenedIsKeyed(sys: System, ctx: Ctx, o: Outcome)
    requires WellKeyed(sys) && RowOf(sys.swaps, ctx.swapNo) == |sys.swaps| && ctx.capped == {}
    requires UniqueIds(o.tb.log)
    ensures WellKeyed(AfterOpen(sys, ctx, o))
  {
    hide UniqueIds;
  }

  /** Whether the swap is created or refused, the ledger stays solvent and nobody else's part moves. */
  lemma CreationFacts(sys: System, ctx: Ctx) returns (o: Outcome)
    requires SysInv(sys) && Regular(sys, OpenSwap(ctx))
    ensures o == ExecuteSwap(ctx.Flagged(sys.capped), sys.tb) && UniqueIds(o.tb.log) && Solvent(o.tb, sys.capped)
    ensures o.ok ==> Sound(ctx, o.swap, View(o.tb, ctx.Source()))
    ensures LocalTo(sys.tb, o.tb, View(o.tb, ctx.Source()), ctx.Source())
    ensures WellKeyed(sys) && ctx.capped == {} && CoverFits(ctx.Flagged(sys.capped))
  {
    hide Sound, CoverFits, Solvent, CreateAndStart, View, SwapFits;
    StartingKeepsSolvent(ctx.Flagged(sys.capped), Swap(Processing, None, false, [], [SwapCreated]), sys.tb, 1, 1, []);
    o := CreatedIsSound(ctx, sys.tb, sys.capped);
  }

  lemma OpenKeepsSysInv(sys: System, ctx: Ctx)
    requires SysInv(sys) && Regular(sys, OpenSwap(ctx)) && RowOf(sys.swaps, ctx.swapNo) == |sys.swaps|
    ensures SysInv(Perform(sys, OpenSwap(ctx)))
  {
    hide Regular, Sound, CoverFits, Solvent, View, ExecuteSwap, SwapFits, LocalTo, UniqueIds, WellKeyed;
    var o := CreationFacts(sys, ctx);
    OpenedIsKeyed(sys, ctx, o);
    var sys' := AfterOpen(sys, ctx, o);
    forall k: nat | k < |sys'.swaps| ensures SwapFits(sys', k) {
      OpenedFits(sys, ctx, o, k);
    }
  }

  /** One call to the i-th swap: what it does to that swap, and nothing to the k-th. */
  lemma MoveIsShared(sys: System, i: nat, op: Op, k: nat)
    requires SysInv(sys) && i < |sys.swaps| && k < |sys.swaps|
    ensures
      var b := sys.swaps[i];
      var f := b.ctx.Flagged(sys.capped);
      var sys' := AfterStep(sys, i, Step(f, b.swap, sys.tb, op));
      && WellKeyed(sys') && Solvent(sys'.tb, sys.capped)
      && if k != i then Untouched(sys, sys', k)
         else
           var o := Alone(f, b.swap, sys.tb, op);
           sys'.swaps[k] == b.(swap := o.swap) && Share(sys', k) == o.tb
  {
    hide Sound, CoverFits, Solvent, Step, Alone;
    var b := sys.swaps[i];
    assert SwapFits(sys, i) && b.ctx.Flagged(sys.capped).Unflagged() == b.ctx;
    assert k != i ==> sys.swaps[k].ctx.Source() != b.ctx.Source();
    SharedStep(b.ctx.Flagged(sys.capped), b.swap, sys.tb, op);
  }

  lemma AloneKeepsSound(ctx: Ctx, capped: set<nat>, s: Swap, tb: Tb, op: Op)
    requires ctx.capped == {} && Sound(ctx, s, View(tb, ctx.Source()))
    ensures
      var o := Alone(ctx.Flagged(capped), s, tb, op);
      Sound(ctx, o.swap, o.tb)
  {
    assert ctx.Flagged(capped).Unflagged() == ctx;
    hide Sound, Step, Denied;
    StepKeepsSound(ctx, s, View(tb, ctx.Source()), op);
  }

  lemma MoveKeepsSysInv(sys: System, i: nat, op: Op)
    requires SysInv(sys) && i < |sys.swaps|
    ensures SysInv(AfterStep(sys, i, Step(sys.swaps[i].ctx.Flagged(sys.capped), sys.swaps[i].swap, sys.tb, op)))
  {
    hide Sound, Step, View, CoverFits, Solvent, Alone;
    var b := sys.swaps[i];
    var sys' := AfterStep(sys, i, Step(b.ctx.Flagged(sys.capped), b.swap, sys.tb, op));
    assert SwapFits(sys, i);
    MoveIsShared(sys, i, op, i);
    AloneKeepsSound(b.ctx, sys.capped, b.swap, sys.tb, op);
    forall k: nat | k < |sys'.swaps| ensures SwapFits(sys', k) {
      assert SwapFits(sys, k);
      MoveIsShared(sys, i, op, k);
    }
  }

  lemma ElsewhereKeepsSysInv(sys: System, c: Call)
    requires SysInv(sys) && Foreign(c) && (c.CreateElsewhere? || c.ResolveElsewhere?)
    ensures SysInv(Perform(sys, c)) && Perform(sys, c).tb.accounts == sys.tb.accounts
    ensures forall k: nat :: k < |sys.swaps| ==> Untouched(sys, Perform(sys, c), k)
  {
    hide Sound, CoverFits, Solvent;
    match c
    case CreateElsewhere(t) =>
      CreateLocal(sys.tb, t);
      if CreateCapped(sys.tb, sys.capped, t).Ok? {
        CreateKeepsSolvent(sys.tb, sys.capped, t);
      }
      SharesStay(sys, Perform(sys, c));
    case ResolveElsewhere(id, amount, outcome) =>
      ResolveLocal(sys.tb, id, amount, outcome);
      if Resolve(sys.tb, id, amount, outcome).Ok? {
        ResolveKeepsSolvent(sys.tb, sys.capped, id, amount, outcome);
      }
      SharesStay(sys, Perform(sys, c));
  }

  lemma SharesStay(sys: System, sys': System)
    requires SysInv(sys) && sys'.swaps == sys.swaps && sys'.capped == sys.capped
    requires UniqueIds(sys'.tb.log) && Solvent(sys'.tb, sys.capped)
    requires forall k: nat :: k < |sys.swaps| ==> Share(sys', k) == Share(sys, k)
    ensures SysInv(sys')
    ensures forall k: nat :: k < |sys.swaps| ==> Untouched(sys, sys', k)
  {
    hide Sound, CoverFits, Solvent;
    forall k: nat | k < |sys'.swaps| ensures SwapFits(sys', k) {
      assert SwapFits(sys, k);
    }
  }

  lemma PerformKeepsSysInv(sys: System, c: Call)
    requires SysInv(sys) && Regular(sys, c)
    ensures SysInv(Perform(sys, c)) && Perform(sys, c).capped == sys.capped
  {
    hide SysInv, Step, ExecuteSwap;
    match c
    case OpenSwap(ctx) =>
      if RowOf(sys.swaps, ctx.swapNo) == |sys.swaps| {
        OpenKeepsSysInv(sys, ctx);
      }
    case OnSwap(no, op) =>
      if RowOf(sys.swaps, no) < |sys.swaps| {
        MoveKeepsSysInv(sys, RowOf(sys.swaps, no), op);
      }
    case _ => ElsewhereKeepsSysInv(sys, c);
  }

  lemma {:induction false} RunKeepsSysInv(sys: System, calls: seq<Call>)
    requires SysInv(sys) && RegularRun(sys, calls)
    ensures SysInv(PerformAll(sys, calls)) && PerformAll(sys, calls).capped == sys.capped
    decreases |calls|
  {
    if calls != [] {
      PerformKeepsSysInv(sys, calls[0]);
      RunKeepsSysInv(Perform(sys, calls[0]), calls[1..]);
    }
  }

  /** A system before its first swap: an empty ledger, some of whose accounts may be flagged. */
  function Opening(accounts: map<nat, Account>, capped: set<nat>): System { System([], Tb(accounts, []), capped) }

  lemma OpeningFits(accounts: map<nat, Account>, capped: set<nat>)
    ensures SysInv(Opening(accounts, capped))
  {
  }

  /** Every swap of every system that started without swaps, whatever was created, called and
      posted in between: its rows and its share of the ledger agree, unless one of its legs could
      not start and it diverged. And no flagged account is overdrawn. */
  lemma EverySwapIsSound(accounts: map<nat, Account>, capped: set<nat>, calls: seq<Call>, k: nat)
    requires RegularRun(Opening(accounts, capped), calls)
    requires k < |PerformAll(Opening(accounts, capped), calls).swaps|
    ensures
      var sys := PerformAll(Opening(accounts, capped), calls);
      var b := sys.swaps[k];
      && Solvent(sys.tb, capped)
      && RowsInv(b.ctx, b.swap) && Sound(b.ctx, b.swap, Share(sys, k))
      && (Configured(b.ctx, sys.tb) ==> Inv(b.ctx, b.swap, Share(sys, k)))
  {
    OpeningFits(accounts, capped);
    RunKeepsSysInv(Opening(accounts, capped), calls);
    var sys := PerformAll(Opening(accounts, capped), calls);
    assert SwapFits(sys, k);
    SameConfigured(sys.swaps[k].ctx, sys.tb, Share(sys, k));
  }

  // ── Non-interference ──

  /** The calls to the k-th swap, without the resumes refused for want of cover. */
  function Granted(sys: System, calls: seq<Call>, k: nat): seq<Op>
    requires k < |sys.swaps|
    decreases |calls|
  {
    if calls == [] then []
    else
      var b, c, next := sys.swaps[k], calls[0], Perform(sys, calls[0]);
      (if c.OnSwap? && c.no == b.ctx.swapNo && !Denied(b.ctx.Flagged(sys.capped), b.swap, sys.tb, c.op) then [c.op]
       else [])
      + (if k < |next.swaps| then Granted(next, calls[1..], k) else [])
  }

  lemma OthersStayPut(sys: System, c: Call, k: nat)
    requires SysInv(sys) && Regular(sys, c) && k < |sys.swaps|
    requires !(c.OnSwap? && c.no == sys.swaps[k].ctx.swapNo)
    ensures Untouched(sys, Perform(sys, c), k)
  {
    hide SysInv, Step, ExecuteSwap, Proper, CoverFits;
    match c
    case OpenSwap(ctx) =>
      if RowOf(sys.swaps, ctx.swapNo) == |sys.swaps| {
        assert UniqueIds(sys.tb.log) by { KeyedIsUnique(sys); }
        var o := CreatedIsSound(ctx, sys.tb, sys.capped);
      }
    case OnSwap(no, op) =>
      if RowOf(sys.swaps, no) < |sys.swaps| {
        MoveIsShared(sys, RowOf(sys.swaps, no), op, k);
      }
    case _ => ElsewhereKeepsSysInv(sys, c);
  }

  lemma KeyedIsUnique(sys: System)
    requires SysInv(sys)
    ensures UniqueIds(sys.tb.log) && DistinctNos(sys.swaps)
  {
  }

  lemma RowIsK(sys: System, k: nat)
    requires SysInv(sys) && k < |sys.swaps|
    ensures RowOf(sys.swaps, sys.swaps[k].ctx.swapNo) == k
  {
  }

  /** Non-interference over whole runs: each swap ends where its own calls alone would have taken it,
      in the database and in its part of the ledger, whatever else happened in between. All that the
      rest of the system decides is which resumes have cover. */
  lemma {:induction false} SwapsMeetOnlyOverCover(sys: System, calls: seq<Call>, k: nat)
    requires SysInv(sys) && RegularRun(sys, calls) && k < |sys.swaps|
    ensures
      var b, sys' := sys.swaps[k], PerformAll(sys, calls);
      var alone := Run(b.ctx, b.swap, Share(sys, k), Granted(sys, calls, k));
      k < |sys'.swaps| && sys'.swaps[k] == b.(swap := alone.swap) && Share(sys', k) == alone.tb
    decreases |calls|
  {
    if calls != [] {
      hide Step, Denied, Perform, Share, Solvent, Sound, CoverFits;
      var c, b, sys1 := calls[0], sys.swaps[k], Perform(sys, calls[0]);
      PerformKeepsSysInv(sys, c);
      if c.OnSwap? && c.no == b.ctx.swapNo {
        RowIsK(sys, k);
        MoveIsShared(sys, k, c.op, k);
        assert b.ctx.Flagged(sys.capped).Unflagged() == b.ctx by { assert SwapFits(sys, k); }
      } else {
        OthersStayPut(sys, c, k);
      }
      SwapsMeetOnlyOverCover(sys1, calls[1..], k);
      var rest := Granted(sys1, calls[1..], k);
      if c.OnSwap? && c.no == b.ctx.swapNo && !Denied(b.ctx.Flagged(sys.capped), b.swap, sys.tb, c.op) {
        RunAfter(b.ctx, b.swap, Share(sys, k), c.op, rest);
      } else {
        assert [] + rest == rest;
      }
    }
  }

  // ── Without flags ──

  /** One swap's share of the calls. */
  function OpsOf(calls: seq<Call>, no: string): seq<Op> {
    if calls == [] then []
    else (if calls[0].OnSwap? && calls[0].no == no then [calls[0].op] else []) + OpsOf(calls[1..], no)
  }

  lemma PerformOne(sys: System, c: Call, k: nat)
    requires WellKeyed(sys) && k < |sys.swaps| && Foreign(c) && sys.capped == {}
    ensures
      var b, sys' := sys.swaps[k], Perform(sys, c);
      && WellKeyed(sys') && |sys.swaps| <= |sys'.swaps| && sys'.capped == {}
      && if c.OnSwap? && c.no == b.ctx.swapNo then
           var o := Step(b.ctx, b.swap, Share(sys, k), c.op);
           sys'.swaps[k] == b.(swap := o.swap) && Share(sys', k) == o.tb
         else Untouched(sys, sys', k)
  {
    hide Step, ExecuteSwap, Create, Resolve;
    match c
    case OpenSwap(ctx) =>
      assert ctx.Flagged({}) == ctx;
      ExecuteLocal(ctx, sys.tb);
    case OnSwap(no, op) =>
      var i := RowOf(sys.swaps, no);
      if i < |sys.swaps| {
        assert sys.swaps[i].ctx.Flagged({}) == sys.swaps[i].ctx;
        StepLocal(sys.swaps[i].ctx, sys.swaps[i].swap, sys.tb, op);
        assert k != i ==> sys.swaps[k].ctx.Source() != sys.swaps[i].ctx.Source();
      }
    case CreateElsewhere(t) => CreateLocal(sys.tb, t);
    case ResolveElsewhere(id, amount, outcome) => ResolveLocal(sys.tb, id, amount, outcome);
  }

  /** On a ledger without flagged accounts swaps, in whatever state, do not interfere at all. */
  lemma {:induction false} SwapsDoNotInterfere(sys: System, calls: seq<Call>, k: nat)
    requires WellKeyed(sys) && sys.capped == {} && k < |sys.swaps| && forall c :: c in calls ==> Foreign(c)
    ensures
      var b, sys' := sys.swaps[k], PerformAll(sys, calls);
      var alone := Run(b.ctx, b.swap, Share(sys, k), OpsOf(calls, b.ctx.swapNo));
      k < |sys'.swaps| && sys'.swaps[k] == b.(swap := alone.swap) && Share(sys', k) == alone.tb
    decreases |calls|
  {
    if calls != [] {
      var sys1, b := Perform(sys, calls[0]), sys.swaps[k];
      PerformOne(sys, calls[0], k);
      SwapsDoNotInterfere(sys1, calls[1..], k);
      var rest := OpsOf(calls[1..], b.ctx.swapNo);
      if calls[0].OnSwap? && calls[0].no == b.ctx.swapNo {
        RunAfter(b.ctx, b.swap, Share(sys, k), calls[0].op, rest);
      } else {
        assert [] + rest == rest;
      }
    }
  }
}
