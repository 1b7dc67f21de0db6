/** A swap's calls on a ledger it shares with other documents: where no account carries the
    no-overdraft flag, they answer as on its own part of the ledger and move nothing else. */
module SwapLocality {
  import opened Prelude
  import opened Ledger
  import opened LedgerViews
  import opened SwapModel
  import opened SwapLedger
  import opened SwapInvariant
  import opened SwapSteps
  import opened SwapRuns

  // ── A swap's calls are local to its own transfers ──

  lemma {:induction false} InitiateLocal(ctx: Ctx, spec: LegSpec, entries: seq<Entry>, attempt: nat, tb: Tb)
    requires UniqueIds(tb.log) && ctx.capped == {}
    ensures
      var r := InitiatePending(ctx, spec, entries, attempt, tb);
      var v := InitiatePending(ctx, spec, entries, attempt, View(tb, ctx.Source()));
      r.ok == v.ok && LocalTo(tb, r.tb, v.tb, ctx.Source())
    decreases |entries|
  {
    if entries != [] && ctx.Amount(spec.amount) > 0 {
      var e := entries[0];
      if ctx.Resolves(e.debitCode, spec.side) && ctx.Resolves(e.creditCode, spec.side) {
        var t := TransferFor(ctx, spec, e, attempt, Pending);
        CreateLocal(tb, t);
        if Create(tb, t).Ok? {
          var next := Create(tb, t).value;
          InitiateLocal(ctx, spec, entries[1..], attempt, next);
          LocalTrans(tb, next, InitiatePending(ctx, spec, entries[1..], attempt, next).tb,
                     InitiatePending(ctx, spec, entries[1..], attempt, View(next, ctx.Source())).tb, ctx.Source());
        }
      }
    }
  }

  lemma {:induction false} ResolveLegLocal(
      ctx: Ctx, spec: LegSpec, entries: seq<Entry>, attempt: nat, tb: Tb, outcome: Phase)
    requires UniqueIds(tb.log)
    ensures
      var r := ResolveLeg(ctx, spec, entries, attempt, tb, outcome);
      var v := ResolveLeg(ctx, spec, entries, attempt, View(tb, ctx.Source()), outcome);
      r.ok == v.ok && LocalTo(tb, r.tb, v.tb, ctx.Source())
    decreases |entries|
  {
    if entries != [] && ctx.Amount(spec.amount) > 0 {
      var id, amount := ctx.Id(entries[0].event, attempt), ctx.Amount(spec.amount);
      ResolveLocal(tb, id, amount, outcome);
      if Resolve(tb, id, amount, outcome).Ok? {
        var next := Resolve(tb, id, amount, outcome).value;
        ResolveLegLocal(ctx, spec, entries[1..], attempt, next, outcome);
        LocalTrans(tb, next, ResolveLeg(ctx, spec, entries[1..], attempt, next, outcome).tb,
                   ResolveLeg(ctx, spec, entries[1..], attempt, View(next, ctx.Source()), outcome).tb, ctx.Source());
      }
    }
  }

  /** The same outcome on the shared ledger as on the swap's own view of it. */
  ghost predicate SameOutcome(tb: Tb, o: Outcome, v: Outcome, src: Source) {
    o.ok == v.ok && o.swap == v.swap && LocalTo(tb, o.tb, v.tb, src)
  }

  lemma CreateAndStartLocal(ctx: Ctx, s: Swap, tb: Tb, leg: nat, attempt: nat, audits: seq<Audit>)
    requires ctx.capped == {} && UniqueIds(tb.log) && 1 <= leg <= LEGS
    ensures SameOutcome(tb, CreateAndStart(ctx, s, tb, leg, attempt, audits),
                        CreateAndStart(ctx, s, View(tb, ctx.Source()), leg, attempt, audits), ctx.Source())
  {
    InitiateLocal(ctx, ctx.Spec(leg), ctx.Spec(leg).entries, attempt, tb);
  }

  lemma StartAfter(ctx: Ctx, s: Swap, tb: Tb, mid: Tb, v: Tb, leg: nat, attempt: nat, audits: seq<Audit>)
    requires ctx.capped == {}
    requires LocalTo(tb, mid, v, ctx.Source()) && 1 <= leg <= LEGS
    ensures SameOutcome(tb, CreateAndStart(ctx, s, mid, leg, attempt, audits),
                        CreateAndStart(ctx, s, v, leg, attempt, audits), ctx.Source())
  {
    CreateAndStartLocal(ctx, s, mid, leg, attempt, audits);
    LocalTrans(tb, mid, CreateAndStart(ctx, s, mid, leg, attempt, audits).tb,
               CreateAndStart(ctx, s, v, leg, attempt, audits).tb, ctx.Source());
  }

  lemma ClearedLocal(ctx: Ctx, s: Swap, tb: Tb, leg: nat, attempt: nat)
    requires ctx.capped == {} && UniqueIds(tb.log) && 1 <= leg <= LEGS
    ensures SameOutcome(tb, OnLegCleared(ctx, s, tb, leg, attempt),
                        OnLegCleared(ctx, s, View(tb, ctx.Source()), leg, attempt), ctx.Source())
  {
    ResolveLegLocal(ctx, ctx.Spec(leg), ctx.Spec(leg).entries, attempt, tb, Posted);
    AfterPostLocal(ctx, s, tb, ResolveLeg(ctx, ctx.Spec(leg), ctx.Spec(leg).entries, attempt, tb, Posted),
                   ResolveLeg(ctx, ctx.Spec(leg), ctx.Spec(leg).entries, attempt, View(tb, ctx.Source()), Posted),
                       leg, attempt);
  }

  lemma AfterPostLocal(ctx: Ctx, s: Swap, tb: Tb, post: TbOut, v: TbOut, leg: nat, attempt: nat)
    requires ctx.capped == {}
    requires post.ok == v.ok && LocalTo(tb, post.tb, v.tb, ctx.Source()) && 1 <= leg <= LEGS
    ensures SameOutcome(tb, AfterPost(ctx, s, post, leg, attempt), AfterPost(ctx, s, v, leg, attempt), ctx.Source())
  {
    if leg < LEGS {
      StartAfter(ctx, s.(audits := s.audits + [LegPosted(leg, attempt)]), tb, post.tb, v.tb, leg + 1, 1, []);
    }
  }

  lemma SelfHealLocal(ctx: Ctx, s: Swap, tb: Tb, voided: TbOut, v: TbOut, target: nat)
    requires ctx.capped == {}
    requires voided.ok == v.ok && LocalTo(tb, voided.tb, v.tb, ctx.Source())
    requires target < |s.rows| && 1 <= s.rows[target].legSeq <= LEGS
    ensures SameOutcome(tb, SelfHeal(ctx, s, voided, target), SelfHeal(ctx, s, v, target), ctx.Source())
  {
    hide CreateAndStart, Recompute;
    var row := s.rows[target];
    if row.attempt < MAX_LEG_ATTEMPTS {
      StartAfter(ctx, s, tb, voided.tb, v.tb, row.legSeq, row.attempt + 1, [LegRetried(row.legSeq, row.attempt)]);
    }
  }

  lemma FailedLocal(ctx: Ctx, s: Swap, tb: Tb, target: nat)
    requires ctx.capped == {} && UniqueIds(tb.log) && target < |s.rows| && 1 <= s.rows[target].legSeq <= LEGS
    ensures SameOutcome(tb, OnLegFailed(ctx, s, tb, target),
                        OnLegFailed(ctx, s, View(tb, ctx.Source()), target), ctx.Source())
  {
    var row := s.rows[target];
    var spec := ctx.Spec(row.legSeq);
    ResolveLegLocal(ctx, spec, spec.entries, row.attempt, tb, Voided);
    SelfHealLocal(ctx, s, tb, ResolveLeg(ctx, spec, spec.entries, row.attempt, tb, Voided),
                  ResolveLeg(ctx, spec, spec.entries, row.attempt, View(tb, ctx.Source()), Voided), target);
  }

  lemma FollowLocal(ctx: Ctx, s: Swap, tb: Tb, i: nat, next: LegStatus)
    requires ctx.capped == {} && UniqueIds(tb.log) && i < |s.rows| && 1 <= s.rows[i].legSeq <= LEGS
    ensures SameOutcome(tb, Follow(ctx, s, tb, i, next), Follow(ctx, s, View(tb, ctx.Source()), i, next), ctx.Source())
  {
    var row := s.rows[i];
    var s1 := s.(rows := s.rows[i := row.(status := next)]);
    if next == Clear {
      ClearedLocal(ctx, s1, tb, row.legSeq, row.attempt);
    } else if TerminalFail(next) {
      FailedLocal(ctx, s1, tb, i);
    }
  }

  predicate Admitted(s: Swap, leg: nat) {
    s.status == Processing && Active(s.rows, leg) >= 0 && !PriorOpen(s.rows, |s.rows|, leg) && 1 <= leg <= LEGS
  }

  /** `advanceLeg` spelled out: the guards, the late booking, the transition, its consequences. */
  function Advanced(ctx: Ctx, s: Swap, pend: TbOut, leg: nat, action: LegAction): Outcome
    requires Admitted(s, leg)
  {
    var i := Active(s.rows, leg);
    var next := Transition(ctx.IsFiat(ctx.Spec(leg).side), s.rows[i].status, action);
    if !pend.ok || next.None? then Throw(s, pend.tb) else Follow(ctx, s, pend.tb, i, next.value)
  }

  function Pend(ctx: Ctx, s: Swap, tb: Tb, leg: nat): TbOut
    requires Admitted(s, leg)
  {
    if s.rows[Active(s.rows, leg)].status == Created
    then InitiatePending(ctx, ctx.Spec(leg), ctx.Spec(leg).entries, 1, tb) else TbOut(true, tb)
  }

  lemma AdvanceSpelledOut(ctx: Ctx, s: Swap, tb: Tb, leg: nat, action: LegAction)
    ensures AdvanceBody(ctx, s, tb, leg, action)
         == if Admitted(s, leg) then Advanced(ctx, s, Pend(ctx, s, tb, leg), leg, action) else Throw(s, tb)
  {
  }

  lemma AdvanceLocal(ctx: Ctx, s: Swap, tb: Tb, leg: nat, action: LegAction)
    requires ctx.capped == {} && UniqueIds(tb.log)
    ensures SameOutcome(tb, AdvanceBody(ctx, s, tb, leg, action),
                        AdvanceBody(ctx, s, View(tb, ctx.Source()), leg, action), ctx.Source())
  {
    var src := ctx.Source();
    AdvanceSpelledOut(ctx, s, tb, leg, action);
    AdvanceSpelledOut(ctx, s, View(tb, src), leg, action);
    if Admitted(s, leg) {
      var i := Active(s.rows, leg);
      var pend, pendV := Pend(ctx, s, tb, leg), Pend(ctx, s, View(tb, src), leg);
      InitiateLocal(ctx, ctx.Spec(leg), ctx.Spec(leg).entries, 1, tb);
      var next := Transition(ctx.IsFiat(ctx.Spec(leg).side), s.rows[i].status, action);
      if pend.ok && next.Some? {
        FollowLocal(ctx, s, pend.tb, i, next.value);
        LocalTrans(tb, pend.tb, Follow(ctx, s, pend.tb, i, next.value).tb,
            Follow(ctx, s, pendV.tb, i, next.value).tb, src);
      }
    }
  }

  lemma StepLocal(ctx: Ctx, s: Swap, tb: Tb, op: Op)
    requires ctx.capped == {} && UniqueIds(tb.log)
    ensures SameOutcome(tb, Step(ctx, s, tb, op), Step(ctx, s, View(tb, ctx.Source()), op), ctx.Source())
  {
    hide AdvanceBody, CreateAndStart, View;
    match op
    case Advance(leg, action) => AdvanceLocal(ctx, s, tb, leg, action);
    case Resume(leg) =>
      var i := Active(s.rows, leg);
      if i >= 0 && 1 <= leg <= LEGS {
        var attempt := s.rows[i].attempt + 1;
        CreateAndStartLocal(ctx, s, tb, leg, attempt, [LegResumed(leg, attempt)]);
      }
  }
}
