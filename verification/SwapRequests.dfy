/** Every call to a swap is a run of ledger requests under the swap's own number. */
module SwapRequests {
  import opened Prelude
  import opened Ledger
  import opened GapLaws
  import opened Cover
  import opened Requests
  import opened SwapModel
  import opened SwapLedger
  import opened SwapLocality

  lemma {:induction false} BookingAsks(ctx: Ctx, spec: LegSpec, entries: seq<Entry>, attempt: nat, tb: Tb)
    returns (rs: seq<Request>)
    ensures Asks(tb, ctx.capped, rs, ctx.Source(), InitiatePending(ctx, spec, entries, attempt, tb).tb)
    decreases |entries|
  {
    rs := [];
    if entries != [] && ctx.Amount(spec.amount) > 0 {
      var e := entries[0];
      if ctx.Resolves(e.debitCode, spec.side) && ctx.Resolves(e.creditCode, spec.side) {
        var t := TransferFor(ctx, spec, e, attempt, Pending);
        if CreateCapped(tb, ctx.capped, t).Ok? {
          var next := CreateCapped(tb, ctx.capped, t).value;
          hide CreateCapped, Asks;
          rs := BookingAsks(ctx, spec, entries[1..], attempt, next);
          AsksOne(tb, ctx.capped, Record(t));
          AsksBoth(tb, ctx.capped, [Record(t)], rs, ctx.Source(), next,
                   InitiatePending(ctx, spec, entries[1..], attempt, next).tb);
          rs := [Record(t)] + rs;
        }
      }
    }
  }

  lemma {:induction false} SettlingAsks(
      ctx: Ctx, spec: LegSpec, entries: seq<Entry>, attempt: nat, tb: Tb, outcome: Phase) returns (rs: seq<Request>)
    ensures Asks(tb, ctx.capped, rs, ctx.Source(), ResolveLeg(ctx, spec, entries, attempt, tb, outcome).tb)
    decreases |entries|
  {
    rs := [];
    if entries != [] && ctx.Amount(spec.amount) > 0 {
      var id, amount := ctx.Id(entries[0].event, attempt), ctx.Amount(spec.amount);
      if Resolve(tb, id, amount, outcome).Ok? {
        var first, next := Decide(id, amount, outcome), Resolve(tb, id, amount, outcome).value;
        hide Resolve, Asks;
        rs := SettlingAsks(ctx, spec, entries[1..], attempt, next, outcome);
        AsksOne(tb, ctx.capped, first);
        AsksBoth(tb, ctx.capped, [first], rs, ctx.Source(), next,
                 ResolveLeg(ctx, spec, entries[1..], attempt, next, outcome).tb);
        rs := [first] + rs;
      }
    }
  }

  lemma StartAsks(ctx: Ctx, s: Swap, tb: Tb, leg: nat, attempt: nat, audits: seq<Audit>) returns (rs: seq<Request>)
    requires 1 <= leg <= LEGS
    ensures Asks(tb, ctx.capped, rs, ctx.Source(), CreateAndStart(ctx, s, tb, leg, attempt, audits).tb)
  {
    hide InitiatePending, Recompute, Asks;
    if ctx.WalletsFound(ctx.Spec(leg)) {
      rs := BookingAsks(ctx, ctx.Spec(leg), ctx.Spec(leg).entries, attempt, tb);
    } else {
      rs := [];
      AsksNothing(tb, ctx.capped, ctx.Source());
    }
  }

  lemma FollowAsks(ctx: Ctx, s: Swap, tb: Tb, i: nat, next: LegStatus) returns (rs: seq<Request>)
    requires i < |s.rows| && 1 <= s.rows[i].legSeq <= LEGS
    ensures Asks(tb, ctx.capped, rs, ctx.Source(), Follow(ctx, s, tb, i, next).tb)
  {
    hide CreateAndStart, ResolveLeg, Recompute, Asks;
    var row := s.rows[i];
    var s1, spec := s.(rows := s.rows[i := row.(status := next)]), ctx.Spec(row.legSeq);
    rs := [];
    AsksNothing(tb, ctx.capped, ctx.Source());
    if next == Clear {
      var post := ResolveLeg(ctx, spec, spec.entries, row.attempt, tb, Posted);
      rs := SettlingAsks(ctx, spec, spec.entries, row.attempt, tb, Posted);
      if post.ok && row.legSeq < LEGS {
        var s2 := s1.(audits := s1.audits + [LegPosted(row.legSeq, row.attempt)]);
        var more := StartAsks(ctx, s2, post.tb, row.legSeq + 1, 1, []);
        AsksBoth(tb, ctx.capped, rs, more, ctx.Source(), post.tb,
                 CreateAndStart(ctx, s2, post.tb, row.legSeq + 1, 1, []).tb);
        rs := rs + more;
      }
    } else if TerminalFail(next) {
      var voided := ResolveLeg(ctx, spec, spec.entries, row.attempt, tb, Voided);
      rs := SettlingAsks(ctx, spec, spec.entries, row.attempt, tb, Voided);
      if voided.ok && row.attempt < MAX_LEG_ATTEMPTS {
        var retried := [LegRetried(row.legSeq, row.attempt)];
        var more := StartAsks(ctx, s1, voided.tb, row.legSeq, row.attempt + 1, retried);
        AsksBoth(tb, ctx.capped, rs, more, ctx.Source(), voided.tb,
                 CreateAndStart(ctx, s1, voided.tb, row.legSeq, row.attempt + 1, retried).tb);
        rs := rs + more;
      }
    }
  }

  lemma AdvanceAsks(ctx: Ctx, s: Swap, tb: Tb, leg: nat, action: LegAction) returns (rs: seq<Request>)
    ensures Asks(tb, ctx.capped, rs, ctx.Source(), AdvanceBody(ctx, s, tb, leg, action).tb)
  {
    hide AdvanceBody, Follow, InitiatePending, Transition, Asks;
    rs := [];
    AsksNothing(tb, ctx.capped, ctx.Source());
    AdvanceSpelledOut(ctx, s, tb, leg, action);
    if Admitted(s, leg) {
      var i, pend := Active(s.rows, leg), Pend(ctx, s, tb, leg);
      if s.rows[i].status == Created {
        rs := BookingAsks(ctx, ctx.Spec(leg), ctx.Spec(leg).entries, 1, tb);
      }
      var next := Transition(ctx.IsFiat(ctx.Spec(leg).side), s.rows[i].status, action);
      if pend.ok && next.Some? {
        var more := FollowAsks(ctx, s, pend.tb, i, next.value);
        AsksBoth(tb, ctx.capped, rs, more, ctx.Source(), pend.tb, Follow(ctx, s, pend.tb, i, next.value).tb);
        rs := rs + more;
      }
    }
  }

  lemma StepAsks(ctx: Ctx, s: Swap, tb: Tb, op: Op) returns (rs: seq<Request>)
    ensures Asks(tb, ctx.capped, rs, ctx.Source(), Step(ctx, s, tb, op).tb)
  {
    hide AdvanceBody, CreateAndStart, Asks;
    match op
    case Advance(leg, action) => rs := AdvanceAsks(ctx, s, tb, leg, action);
    case Resume(leg) =>
      var i := Active(s.rows, leg);
      rs := [];
      AsksNothing(tb, ctx.capped, ctx.Source());
      if i >= 0 && 1 <= leg <= LEGS && s.status == Processing && s.rows[i].status == NeedsReview {
        rs := StartAsks(ctx, s, tb, leg, s.rows[i].attempt + 1, [LegResumed(leg, s.rows[i].attempt + 1)]);
      }
  }
}
