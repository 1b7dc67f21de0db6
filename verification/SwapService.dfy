/** The swap workflow service as it runs: the swap's row and leg rows are fields it updates in
    place inside a database transaction, the ledger is called along the way, and a throw rolls the
    rows back but not the ledger. Each method is proved to do what the specification functions say. */
module SwapService {
  import opened Prelude
  import opened Ledger
  import opened SwapModel
  import opened SwapLedger
  import opened SwapInvariant
  import opened SwapSteps
  import opened SwapRuns
  import opened SwapDivergence
  import opened SwapRules

  class SwapWorkflow {
    const ctx: Ctx
    var status: SwapStatus
    var stage: Option<Stage>
    var needsReview: bool
    var rows: seq<LegRow>
    var audits: seq<Audit>
    var tb: Tb

    function State(): Swap
      reads this
    {
      Swap(status, stage, needsReview, rows, audits)
    }

    /** A swap row just inserted, before its first leg is booked. */
    constructor (ctx: Ctx, tb: Tb)
      ensures this.ctx == ctx && this.tb == tb
      ensures State() == Swap(Processing, None, false, [], [SwapCreated])
    {
      this.ctx := ctx;
      this.tb := tb;
      status, stage, needsReview, rows, audits := Processing, None, false, [], [SwapCreated];
    }

    // ── Ledger side of a leg ──

    method InitiateLegPending(spec: LegSpec, attempt: nat) returns (ok: bool)
      modifies this`tb
      ensures TbOut(ok, tb) == InitiatePending(ctx, spec, spec.entries, attempt, old(tb))
    {
      ok := true;
      var amount := ctx.Amount(spec.amount);
      for i := 0 to |spec.entries|
        invariant InitiatePending(ctx, spec, spec.entries[i..], attempt, tb)
               == InitiatePending(ctx, spec, spec.entries, attempt, old(tb))
      {
        var e := spec.entries[i];
        assert spec.entries[i..][1..] == spec.entries[i + 1..];
        if amount > 0 {
          if !ctx.Resolves(e.debitCode, spec.side) || !ctx.Resolves(e.creditCode, spec.side) {
            return false;
          }
          match ExecutePending(tb, ctx.capped, ctx.Id(e.event, attempt), ctx.accounts[(e.debitCode, spec.side)],
                               ctx.accounts[(e.creditCode, spec.side)], amount, ctx.LedgerOf(spec.side))
          case Ok(tb') => tb := tb';
          case Err(_) => return false;
        }
      }
    }

    /** `postLeg` and `voidLeg`: one call per accounting entry, stopping at the first refusal. */
    method ResolveLegPending(spec: LegSpec, attempt: nat, outcome: Phase) returns (ok: bool)
      modifies this`tb
      ensures TbOut(ok, tb) == ResolveLeg(ctx, spec, spec.entries, attempt, old(tb), outcome)
    {
      ok := true;
      var amount := ctx.Amount(spec.amount);
      for i := 0 to |spec.entries|
        invariant ResolveLeg(ctx, spec, spec.entries[i..], attempt, tb, outcome)
               == ResolveLeg(ctx, spec, spec.entries, attempt, old(tb), outcome)
      {
        assert spec.entries[i..][1..] == spec.entries[i + 1..];
        if amount > 0 {
          match Resolve(tb, ctx.Id(spec.entries[i].event, attempt), amount, outcome)
          case Ok(tb') => tb := tb';
          case Err(_) => return false;
        }
      }
    }

    // ── Reading the rows ──

    /** The row with the highest attempt of every leg. */
    method ActiveLegsBySeq() returns (active: map<nat, nat>)
      ensures forall leg: nat :: leg in active <==> Active(rows, leg) >= 0
      ensures forall leg: nat :: leg in active ==> active[leg] == Active(rows, leg)
    {
      active := map[];
      for i := 0 to |rows|
        invariant forall leg: nat :: leg in active <==> Active(rows[..i], leg) >= 0
        invariant forall leg: nat :: leg in active ==> active[leg] == Active(rows[..i], leg)
      {
        ActiveSnoc(rows, i);
        hide Active;
        var leg := rows[i].legSeq;
        if leg !in active || rows[i].attempt > rows[active[leg]].attempt {
          active := active[leg := i];
        }
      }
      assert rows[..|rows|] == rows;
    }

    method RecomputeProjections()
      modifies this`stage, this`needsReview
      ensures State() == Recompute(old(State()))
    {
      hide Active;
      var active := ActiveLegsBySeq();
      var working: Option<nat> := None;
      var review := false;
      for i := 0 to |rows|
        invariant working == LowestOpen(rows, i)
        invariant review == AnyNeedsReview(rows, i)
      {
        var leg := rows[i].legSeq;
        HasActive(rows, i);
        var current := rows[active[leg]].status;
        review := review || current == NeedsReview;
        if current != Clear && (working.None? || leg < working.value) {
          working := Some(leg);
        }
      }
      needsReview := review;
      stage := if working.Some? then Some(StageOf(working.value)) else None;
    }

    // ── The workflow ──

    method CreateAndStartLeg(leg: nat, attempt: nat, extra: seq<Audit>) returns (ok: bool)
      requires 1 <= leg <= LEGS
      modifies this
      ensures var o := CreateAndStart(ctx, old(State()), old(tb), leg, attempt, extra);
        ok == o.ok && tb == o.tb && (ok ==> State() == o.swap)
    {
      var spec := ctx.Spec(leg);
      if !ctx.WalletsFound(spec) {
        return false;
      }
      rows := rows + [LegRow(leg, attempt, Created)];
      ok := InitiateLegPending(spec, attempt);
      if !ok {
        return;
      }
      var next := Transition(ctx.IsFiat(spec.side), Created, if ctx.StartsFiat(spec.side) then Submit else Sign);
      if next.None? {
        return false;
      }
      rows := rows[|rows| - 1 := LegRow(leg, attempt, next.value)];
      assert rows == old(rows) + [LegRow(leg, attempt, next.value)];
      audits := audits + extra;
      RecomputeProjections();
    }

    method LegCleared(leg: nat, attempt: nat) returns (ok: bool)
      requires 1 <= leg <= LEGS
      modifies this
      ensures var o := OnLegCleared(ctx, old(State()), old(tb), leg, attempt);
        ok == o.ok && tb == o.tb && (ok ==> State() == o.swap)
    {
      ok := ResolveLegPending(ctx.Spec(leg), attempt, Posted);
      if !ok {
        return;
      }
      audits := audits + [LegPosted(leg, attempt)];
      if leg == LEGS {
        status := Success;
        audits := audits + [SwapSucceeded];
        RecomputeProjections();
      } else {
        ok := CreateAndStartLeg(leg + 1, 1, []);
      }
    }

    method LegFailedSelfHeal(target: nat) returns (ok: bool)
      requires target < |rows| && 1 <= rows[target].legSeq <= LEGS
      modifies this
      ensures var o := OnLegFailed(ctx, old(State()), old(tb), target);
        ok == o.ok && tb == o.tb && (ok ==> State() == o.swap)
    {
      hide ResolveLeg, CreateAndStart, Recompute;
      var row := rows[target];
      ghost var before := State();
      ok := ResolveLegPending(ctx.Spec(row.legSeq), row.attempt, Voided);
      if !ok {
        return;
      }
      assert State() == before;
      if row.attempt < MAX_LEG_ATTEMPTS {
        ok := CreateAndStartLeg(row.legSeq, row.attempt + 1, [LegRetried(row.legSeq, row.attempt)]);
      } else {
        rows := rows[target := row.(status := NeedsReview)];
        audits := audits + [LegStuck(row.legSeq, row.attempt)];
        RecomputeProjections();
      }
    }

    method TryAdvance(leg: nat, action: LegAction) returns (ok: bool)
      modifies this
      ensures var o := AdvanceBody(ctx, old(State()), old(tb), leg, action);
        ok == o.ok && tb == o.tb && (ok ==> State() == o.swap)
    {
      if status != Processing {
        return false;
      }
      var active := ActiveLegsBySeq();
      if leg !in active {
        return false;
      }
      var prior := HasPriorOpen(active, leg);
      if prior || !(1 <= leg <= LEGS) {
        return false;
      }
      var target := active[leg];
      var row, spec := rows[target], ctx.Spec(leg);
      if row.status == Created {
        ok := InitiateLegPending(spec, 1);
        if !ok {
          return;
        }
      }
      var next := Transition(ctx.IsFiat(spec.side), row.status, action);
      if next.None? {
        return false;
      }
      ok := MoveTo(target, next.value);
    }

    /** Stores the leg's new status and does what it calls for. */
    method MoveTo(target: nat, next: LegStatus) returns (ok: bool)
      requires target < |rows| && 1 <= rows[target].legSeq <= LEGS
      modifies this
      ensures var o := Follow(ctx, old(State()), old(tb), target, next);
        ok == o.ok && tb == o.tb && (ok ==> State() == o.swap)
    {
      var row := rows[target];
      rows := rows[target := row.(status := next)];
      if next == Clear {
        ok := LegCleared(row.legSeq, row.attempt);
      } else if TerminalFail(next) {
        ok := LegFailedSelfHeal(target);
      } else {
        ok := true;
      }
    }

    method HasPriorOpen(active: map<nat, nat>, leg: nat) returns (b: bool)
      requires forall l: nat :: l in active <==> Active(rows, l) >= 0
      requires forall l: nat :: l in active ==> active[l] == Active(rows, l)
      ensures b == PriorOpen(rows, |rows|, leg)
    {
      b := false;
      for i := 0 to |rows|
        invariant b == PriorOpen(rows, i, leg)
      {
        HasActive(rows, i);
        b := b || (rows[i].legSeq < leg && rows[active[rows[i].legSeq]].status != Clear);
      }
    }

    method TryResume(leg: nat) returns (ok: bool)
      modifies this
      ensures var o := ResumeBody(ctx, old(State()), old(tb), leg);
        ok == o.ok && tb == o.tb && (ok ==> State() == o.swap)
    {
      hide CreateAndStart;
      if status != Processing {
        return false;
      }
      var active := ActiveLegsBySeq();
      if leg !in active || rows[active[leg]].status != NeedsReview || !(1 <= leg <= LEGS) {
        return false;
      }
      ok := StartNextAttempt(leg, rows[active[leg]].attempt);
    }

    method StartNextAttempt(leg: nat, attempt: nat) returns (ok: bool)
      requires 1 <= leg <= LEGS
      modifies this
      ensures var o := CreateAndStart(ctx, old(State()), old(tb), leg, attempt + 1, [LegResumed(leg, attempt + 1)]);
        ok == o.ok && tb == o.tb && (ok ==> State() == o.swap)
    {
      ok := CreateAndStartLeg(leg, attempt + 1, [LegResumed(leg, attempt + 1)]);
    }

    /** Restores the rows a failed transaction touched. */
    method Rollback(before: Swap)
      modifies this`status, this`stage, this`needsReview, this`rows, this`audits
      ensures State() == before
    {
      status, stage, needsReview, rows, audits :=
        before.status, before.stage, before.needsReview, before.rows, before.audits;
    }

    method ExecuteSwap() returns (ok: bool)
      requires State() == Swap(Processing, None, false, [], [SwapCreated])
      modifies this
      ensures var o := SwapModel.ExecuteSwap(ctx, old(tb)); ok == o.ok && tb == o.tb && (ok ==> State() == o.swap)
      ensures Plain(ctx) && old(tb.log) == [] ==> (ok <==> CanStart(ctx, old(tb), 1))
      ensures ok && Plain(ctx) && old(tb.log) == [] ==>
        State() == Swap(Processing, Some(SellStage), false,
                        [LegRow(1, 1, if ctx.IsFiat(ctx.Spec(1).side) then Confirming else Signing)], [SwapCreated])
    {
      CreatedIfPlain(ctx, tb);
      hide CreateAndStart, CanStart;
      ok := CreateAndStartLeg(1, 1, []);
    }

    /** `advanceLeg`: a refused call changes no row; and nothing in the ledger either, unless it was
        blocked. */
    method AdvanceLeg(leg: nat, action: LegAction) returns (ok: bool)
      modifies this
      ensures Outcome(ok, State(), tb) == Step(ctx, old(State()), old(tb), Advance(leg, action))
      ensures !ok ==> State() == old(State())
      ensures old(Sound(ctx, State(), tb)) ==>
        Sound(ctx, State(), tb) && Grows(old(rows), rows) && tb.accounts == old(tb.accounts)
      ensures old(Proper(ctx) && Inv(ctx, State(), tb) && !Blocked(ctx, State(), tb, Advance(leg, action))) ==>
        Inv(ctx, State(), tb) && (!ok ==> tb == old(tb))
      ensures old(AtWork(ctx, State(), tb, leg)) ==>
        Answers(ctx, old(State()), action, Outcome(ok, State(), tb))
    {
      hide Inv, AtWork, Answers, Blocked, AdvanceBody;
      var before := State();
      StepIfSound(ctx, before, tb, Advance(leg, action));
      AnswersIfAtWork(ctx, before, tb, leg, action);
      ok := TryAdvance(leg, action);
      if !ok {
        Rollback(before);
      }
    }

    /** `resumeLeg`. */
    method ResumeLeg(leg: nat) returns (ok: bool)
      modifies this
      ensures Outcome(ok, State(), tb) == Step(ctx, old(State()), old(tb), Resume(leg))
      ensures !ok ==> State() == old(State())
      ensures old(Sound(ctx, State(), tb)) ==>
        Sound(ctx, State(), tb) && Grows(old(rows), rows) && tb.accounts == old(tb.accounts)
      ensures old(Proper(ctx) && Inv(ctx, State(), tb) && !Blocked(ctx, State(), tb, Resume(leg))) ==>
        Inv(ctx, State(), tb) && (!ok ==> tb == old(tb))
      ensures old(Inv(ctx, State(), tb) && leg == Last(rows).legSeq && Last(rows).status == NeedsReview) ==>
        && ok && 1 <= leg <= LEGS && audits == old(audits) + [LegResumed(leg, old(Last(rows)).attempt + 1)]
        && rows == old(rows) + [LegRow(leg, old(Last(rows)).attempt + 1,
                                       if ctx.IsFiat(ctx.Spec(leg).side) then Confirming else Signing)]
    {
      var before := State();
      RestartsIfParked(ctx, before, tb, leg);
      hide Inv, Blocked, ResumeBody;
      StepIfSound(ctx, before, tb, Resume(leg));
      ok := TryResume(leg);
      if !ok {
        Rollback(before);
      }
    }
  }

  lemma CreatedIfPlain(ctx: Ctx, tb: Tb)
    ensures Plain(ctx) && tb.log == [] ==> (SwapModel.ExecuteSwap(ctx, tb).ok <==> CanStart(ctx, tb, 1))
    ensures SwapModel.ExecuteSwap(ctx, tb).ok && Plain(ctx) && tb.log == [] ==>
      SwapModel.ExecuteSwap(ctx, tb).swap
      == Swap(Processing, Some(SellStage), false,
              [LegRow(1, 1, if ctx.IsFiat(ctx.Spec(1).side) then Confirming else Signing)], [SwapCreated])
  {
    hide CanStart, CreateAndStart;
    if Plain(ctx) && tb.log == [] {
      CreatedSwap(ctx, tb);
    }
  }

  lemma AnswersIfAtWork(ctx: Ctx, s: Swap, tb: Tb, leg: nat, action: LegAction)
    ensures AtWork(ctx, s, tb, leg) ==> Answers(ctx, s, action, Step(ctx, s, tb, Advance(leg, action)))
  {
    hide Inv, Step, CanStart, Answers;
    if AtWork(ctx, s, tb, leg) {
      ActionIsAnswered(ctx, s, tb, action);
    }
  }

  lemma RestartsIfParked(ctx: Ctx, s: Swap, tb: Tb, leg: nat)
    ensures Inv(ctx, s, tb) && leg == Last(s.rows).legSeq && Last(s.rows).status == NeedsReview ==>
      var r, o := Last(s.rows), Step(ctx, s, tb, Resume(leg));
      && o.ok && 1 <= leg <= LEGS && o.swap.audits == s.audits + [LegResumed(leg, r.attempt + 1)]
      && o.swap.rows == s.rows + [LegRow(leg, r.attempt + 1,
                                         if ctx.IsFiat(ctx.Spec(leg).side) then Confirming else Signing)]
  {
    if Inv(ctx, s, tb) && leg == Last(s.rows).legSeq && Last(s.rows).status == NeedsReview {
      hide Inv, Step;
      ResumeRestarts(ctx, s, tb);
    }
  }

  lemma StepIfSound(ctx: Ctx, s: Swap, tb: Tb, op: Op)
    ensures var o := Step(ctx, s, tb, op);
      && (Sound(ctx, s, tb) ==>
            Sound(ctx, o.swap, o.tb) && Grows(s.rows, o.swap.rows) && o.tb.accounts == tb.accounts)
      && (Proper(ctx) && Inv(ctx, s, tb) && !Blocked(ctx, s, tb, op) ==>
            Inv(ctx, o.swap, o.tb) && (!o.ok ==> o.tb == tb))
  {
    hide Inv, Diverged, Blocked, Step;
    if Sound(ctx, s, tb) {
      StepKeepsSound(ctx, s, tb, op);
    }
    if Proper(ctx) && Inv(ctx, s, tb) && !Blocked(ctx, s, tb, op) {
      StepKeepsInv(ctx, s, tb, op);
    }
  }

  lemma ActiveSnoc(rows: seq<LegRow>, i: nat)
    requires i < |rows|
    ensures forall leg: nat ::
      var best := Active(rows[..i], leg);
      Active(rows[..i + 1], leg)
      == if rows[i].legSeq == leg && (best == -1 || rows[i].attempt > rows[best].attempt) then i else best
  {
    assert rows[..i + 1][..i] == rows[..i];
  }

  /** The leg of any row has an active row. */
  lemma {:induction false} HasActive(rows: seq<LegRow>, i: nat)
    requires i < |rows|
    ensures Active(rows, rows[i].legSeq) >= 0
  {
    if i < |rows| - 1 {
      HasActive(rows[..|rows| - 1], i);
    }
  }
}
