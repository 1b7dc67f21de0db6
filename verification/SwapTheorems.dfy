/** What the invariant says to an operator: the attempt structure, the summary fields and the
    audit counts of every reachable swap. */
module SwapTheorems {
  import opened Prelude
  import opened Ledger
  import opened SwapModel
  import opened SwapLedger
  import opened SwapInvariant
  import opened SwapSteps
  import opened SwapRuns
  import opened SwapDivergence

  /** Every state a swap can be in: created on a ledger without its transfers, then any calls. */
  ghost predicate Reachable(ctx: Ctx, s: Swap, tb: Tb) {
    exists tb0: Tb, ops :: ReachedBy(ctx, tb0, ops, s, tb)
  }

  predicate ReachedBy(ctx: Ctx, tb0: Tb, ops: seq<Op>, s: Swap, tb: Tb) {
    && Proper(ctx) && tb0.log == [] && ExecuteSwap(ctx, tb0).ok
    && Run(ctx, ExecuteSwap(ctx, tb0).swap, ExecuteSwap(ctx, tb0).tb, ops) == Outcome(true, s, tb)
  }

  /** The rows of every reachable swap are sound; so is its ledger, unless the swap diverged; and
      a swap all of whose legs can start never does. */
  lemma ReachableIsSound(ctx: Ctx, s: Swap, tb: Tb)
    requires Reachable(ctx, s, tb)
    ensures RowsInv(ctx, s) && Sound(ctx, s, tb)
    ensures Configured(ctx, tb) ==> Inv(ctx, s, tb)
  {
    var tb0: Tb, ops :| ReachedBy(ctx, tb0, ops, s, tb);
    ExecuteEstablishesInv(ctx, tb0);
    RunKeepsSound(ctx, ExecuteSwap(ctx, tb0).swap, ExecuteSwap(ctx, tb0).tb, ops);
  }

  // ── Attempts ──

  function RowsOf(rows: seq<LegRow>, leg: nat): seq<LegRow> {
    if rows == [] then []
    else RowsOf(Init(rows), leg) + (if Last(rows).legSeq == leg then [Last(rows)] else [])
  }

  /** A leg's rows are attempts 1, 2, 3, ... without gaps. */
  predicate Numbered(mine: seq<LegRow>) {
    forall i :: 0 <= i < |mine| ==> mine[i].attempt == i + 1
  }

  /** Attempts before the last have failed: the first two in their failed status, later ones
      parked for review. */
  predicate AllFailed(mine: seq<LegRow>) {
    forall i :: 0 <= i < |mine| ==>
      if mine[i].attempt < MAX_LEG_ATTEMPTS then TerminalFail(mine[i].status) else mine[i].status == NeedsReview
  }

  lemma {:induction false} AttemptStructure(rows: seq<LegRow>, leg: nat)
    requires History(rows)
    ensures Numbered(RowsOf(rows, leg))
    ensures RowsOf(rows, leg) != [] ==> AllFailed(Init(RowsOf(rows, leg)))
    ensures RowsOf(rows, leg) != [] <==> 1 <= leg <= Last(rows).legSeq
    ensures 1 <= leg < Last(rows).legSeq ==> Last(RowsOf(rows, leg)).status == Clear
    ensures leg == Last(rows).legSeq ==> Last(RowsOf(rows, leg)) == Last(rows)
  {
    if |rows| == 1 {
      assert Init(rows) == [];
      assert RowsOf(rows, leg) == if leg == 1 then [rows[0]] else [];
    } else {
      AttemptStructure(Init(rows), leg);
      var before, after := RowsOf(Init(rows), leg), RowsOf(rows, leg);
      if Last(rows).legSeq == leg {
        assert Init(after) == before;
        if before != [] {
          assert before == Init(before) + [Last(before)];
        }
      } else {
        assert after == before;
      }
    }
  }

  /** A status that blocks any other row of its leg: in flight, or clear. */
  predicate Live(s: LegStatus) { !TerminalFail(s) && s != NeedsReview }

  /** Of any two rows of one leg, only the later can be live; a leg exists only when the leg
      before it is clear. */
  lemma OneLiveRowPerLeg(ctx: Ctx, s: Swap, tb: Tb, i: nat, j: nat)
    requires Reachable(ctx, s, tb) && i < j < |s.rows|
    ensures s.rows[i].legSeq == s.rows[j].legSeq ==> !Live(s.rows[i].status) && s.rows[i].attempt < s.rows[j].attempt
    ensures s.rows[i].legSeq <= s.rows[j].legSeq
    ensures s.rows[i].legSeq < s.rows[j].legSeq ==> ActiveIs(s.rows, s.rows[i].legSeq, Clear)
  {
    ReachableIsSound(ctx, s, tb);
    hide Sound, Reachable, Inv, Summary;
    OneLiveRow(s.rows, i, j);
  }

  lemma OneLiveRow(rows: seq<LegRow>, i: nat, j: nat)
    requires History(rows) && i < j < |rows|
    ensures rows[i].legSeq == rows[j].legSeq ==> !Live(rows[i].status) && rows[i].attempt < rows[j].attempt
    ensures rows[i].legSeq <= rows[j].legSeq
    ensures rows[i].legSeq < rows[j].legSeq ==> ActiveIs(rows, rows[i].legSeq, Clear)
  {
    HistoryPrefix(rows, j);
    var some := rows[..j + 1];
    HistoryOrder(some, i);
    if rows[i].legSeq == rows[j].legSeq {
      EarlierFailed(some, i);
    } else {
      LegsUpToLast(rows, j);
      ActiveFacts(rows, rows[i].legSeq);
    }
  }

  lemma {:induction false} EarlierFailed(rows: seq<LegRow>, i: nat)
    requires History(rows) && i < |rows| - 1 && rows[i].legSeq == Last(rows).legSeq
    ensures !Live(rows[i].status)
  {
    if i < |rows| - 2 {
      HistoryOrder(Init(rows), i);
      assert Linked(Init(rows), Last(rows));
      EarlierFailed(Init(rows), i);
    }
  }

  // ── Summary fields ──

  /** The displayed stage is that of `leg`: the only started leg that is not clear. */
  predicate WorkingStage(s: Swap, leg: nat) {
    && s.stage == Some(StageOf(leg))
    && Active(s.rows, leg) >= 0 && !ActiveIs(s.rows, leg, Clear)
    && forall k :: 1 <= k < leg ==> ActiveIs(s.rows, k, Clear)
  }

  /** The summary fields an operator sees are exact in every reachable state. */
  lemma SummaryIsExact(ctx: Ctx, s: Swap, tb: Tb)
    requires Reachable(ctx, s, tb)
    ensures s.status == Success <==> forall leg :: 1 <= leg <= LEGS ==> ActiveIs(s.rows, leg, Clear)
    ensures s.status == Success <==> s.stage == None
    ensures s.needsReview <==> exists leg :: 1 <= leg <= LEGS && ActiveIs(s.rows, leg, NeedsReview)
    ensures s.stage.Some? ==> exists leg :: 1 <= leg <= LEGS && WorkingStage(s, leg)
  {
    ReachableIsSound(ctx, s, tb);
    SummaryFacts(ctx, s);
  }

  lemma ActiveByLeg(rows: seq<LegRow>)
    requires History(rows)
    ensures forall leg :: 1 <= leg < Last(rows).legSeq ==> ActiveIs(rows, leg, Clear)
    ensures forall leg :: leg > Last(rows).legSeq ==> Active(rows, leg) == -1
    ensures Active(rows, Last(rows).legSeq) == |rows| - 1
  {
    forall leg: nat | leg >= 1
      ensures leg == Last(rows).legSeq ==> Active(rows, leg) == |rows| - 1
      ensures leg > Last(rows).legSeq ==> Active(rows, leg) == -1
      ensures leg < Last(rows).legSeq ==> ActiveIs(rows, leg, Clear)
    {
      ActiveFacts(rows, leg);
    }
  }

  lemma SummaryFacts(ctx: Ctx, s: Swap)
    requires RowsInv(ctx, s)
    ensures s.status == Success <==> forall leg :: 1 <= leg <= LEGS ==> ActiveIs(s.rows, leg, Clear)
    ensures s.needsReview <==> exists leg :: 1 <= leg <= LEGS && ActiveIs(s.rows, leg, NeedsReview)
    ensures s.status == Success <==> s.stage == None
    ensures s.stage.Some? ==> exists leg :: 1 <= leg <= LEGS && WorkingStage(s, leg)
  {
    var last := Last(s.rows).legSeq;
    ActiveByLeg(s.rows);
    if s.status == Processing {
      assert !ActiveIs(s.rows, last, Clear) && WorkingStage(s, last);
    }
    forall leg | 1 <= leg <= LEGS && ActiveIs(s.rows, leg, NeedsReview) ensures s.needsReview {
      assert leg < last ==> ActiveIs(s.rows, leg, Clear);
    }
    if s.needsReview {
      assert ActiveIs(s.rows, last, NeedsReview);
    }
  }

  // ── Audit trail ──

  function Retried(audits: seq<Audit>, leg: nat): nat {
    if audits == [] then 0
    else
      var n := |audits| - 1;
      Retried(audits[..n], leg) + (if audits[n].LegRetried? && audits[n].leg == leg then 1 else 0)
  }

  function Resumed(audits: seq<Audit>, leg: nat): nat {
    if audits == [] then 0
    else
      var n := |audits| - 1;
      Resumed(audits[..n], leg) + (if audits[n].LegResumed? && audits[n].leg == leg then 1 else 0)
  }

  lemma {:induction false} CountsConcat(a: seq<Audit>, b: seq<Audit>, leg: nat)
    ensures Retried(a + b, leg) == Retried(a, leg) + Retried(b, leg)
    ensures Resumed(a + b, leg) == Resumed(a, leg) + Resumed(b, leg)
  {
    if b == [] {
      assert a + b == a;
    } else {
      assert (a + b)[..|a + b| - 1] == a + b[..|b| - 1];
      CountsConcat(a, b[..|b| - 1], leg);
    }
  }

  lemma CountsShort(a: Audit, b: Audit, leg: nat)
    ensures Retried([a], leg) == (if a.LegRetried? && a.leg == leg then 1 else 0)
    ensures Resumed([a], leg) == (if a.LegResumed? && a.leg == leg then 1 else 0)
    ensures Retried([a, b], leg) == Retried([a], leg) + Retried([b], leg)
    ensures Resumed([a, b], leg) == Resumed([a], leg) + Resumed([b], leg)
    ensures Retried([b], leg) == (if b.LegRetried? && b.leg == leg then 1 else 0)
    ensures Resumed([b], leg) == (if b.LegResumed? && b.leg == leg then 1 else 0)
  {
    assert [a][..0] == [] && [b][..0] == [] && [a, b] == [a] + [b];
    CountsConcat([a], [b], leg);
  }

  lemma LinkCounts(rows: seq<LegRow>, b: LegRow, leg: nat)
    requires rows != [] && Linked(rows, b)
    ensures Retried(LinkAudits(rows, b), leg) + Resumed(LinkAudits(rows, b), leg)
         == if b.legSeq == leg && Last(rows).legSeq == leg then 1 else 0
  {
    var a := Last(rows);
    CountsShort(LegPosted(a.legSeq, a.attempt), LegRetried(a.legSeq, a.attempt), leg);
    CountsShort(LegStuck(a.legSeq, a.attempt), LegResumed(b.legSeq, b.attempt), leg);
  }

  lemma {:induction false} TrailCounts(rows: seq<LegRow>, leg: nat)
    requires History(rows) && 1 <= leg <= Last(rows).legSeq
    ensures |RowsOf(rows, leg)| == 1 + Retried(Trail(rows), leg) + Resumed(Trail(rows), leg)
  {
    if |rows| == 1 {
      assert Init(rows) == [];
      assert [SwapCreated][..0] == [];
    } else {
      var a, b := Last(Init(rows)), Last(rows);
      CountsConcat(Trail(Init(rows)), LinkAudits(Init(rows), b), leg);
      LinkCounts(Init(rows), b, leg);
      if leg <= a.legSeq {
        TrailCounts(Init(rows), leg);
      } else {
        AttemptStructure(Init(rows), leg);
        NoCounts(Init(rows), leg);
      }
    }
  }

  lemma {:induction false} NoCounts(rows: seq<LegRow>, leg: nat)
    requires History(rows) && leg > Last(rows).legSeq
    ensures Retried(Trail(rows), leg) + Resumed(Trail(rows), leg) == 0
  {
    if |rows| == 1 {
      assert [SwapCreated][..0] == [];
    } else {
      NoCounts(Init(rows), leg);
      CountsConcat(Trail(Init(rows)), LinkAudits(Init(rows), Last(rows)), leg);
      LinkCounts(Init(rows), Last(rows), leg);
    }
  }

  lemma ClosingCounts(r: LegRow, leg: nat)
    ensures Retried(ClosingAudits(r), leg) == 0 && Resumed(ClosingAudits(r), leg) == 0
  {
    CountsShort(LegPosted(r.legSeq, r.attempt), SwapSucceeded, leg);
    CountsShort(LegStuck(r.legSeq, r.attempt), SwapSucceeded, leg);
  }

  /** Every row of a started leg is accounted for: its first attempt, an automatic retry, or a
      manual resume. */
  lemma RowsAreAudited(ctx: Ctx, s: Swap, tb: Tb, leg: nat)
    requires Reachable(ctx, s, tb) && RowsOf(s.rows, leg) != []
    ensures |RowsOf(s.rows, leg)| == 1 + Retried(s.audits, leg) + Resumed(s.audits, leg)
  {
    ReachableIsSound(ctx, s, tb);
    AttemptStructure(s.rows, leg);
    TrailCounts(s.rows, leg);
    ClosingCounts(Last(s.rows), leg);
    CountsConcat(Trail(s.rows), ClosingAudits(Last(s.rows)), leg);
  }
}
